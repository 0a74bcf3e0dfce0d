/**
 * `CuePointMonitor` (package `com.tubitv.media.fsm.listener`): watches playback progress
 * report by report and tells the player state machine when to make the ad call and when
 * to show the ads. Its state lives in fields that its methods update in place; each method
 * is proved to move `Model()` exactly as the matching function of `MonitorModel` does,
 * where the scheduling properties are proved.
 */
module Listener {
  import opened Wrappers
  import opened Fsm
  import opened RangeSearch
  import opened CueTables
  import M = MonitorModel

  /** A Java `long[]` that may be `null`, as a value. */
  ghost function TableView(a: array?<int>): Option<seq<int>>
    reads a
  {
    if a == null then None else Some(a[..])
  }

  /** `removeElementFromArray`: a fresh array holding `table` without position `keyPos`,
      or `null` for a `null` array, a negative position or at most one element. */
  method RemoveElementFromArray(table: array?<int>, keyPos: int) returns (result: array?<int>)
    ensures TableView(result) == RemoveElement(TableView(table), keyPos)
    ensures result != null ==> fresh(result)
  {
    if table == null || keyPos < 0 || table.Length <= 1 {
      return null;
    }
    var length := table.Length - 1;
    result := new int[length];
    var tempPos := 0;
    for i := 0 to length
      invariant tempPos == if keyPos < i then i + 1 else i
      invariant forall k :: 0 <= k < i ==> result[k] == table[if k < keyPos then k else k + 1]
    {
      if i == keyPos {
        tempPos := tempPos + 1;
      }
      result[i] := table[tempPos];
      tempPos := tempPos + 1;
    }
    ghost var w := Without(table[..], keyPos);
    assert |w| == length;
    forall k | 0 <= k < length
      ensures result[k] == w[k]
    {
      if keyPos < table.Length {
        WithoutRemovesOne(table[..], keyPos);
      }
    }
    assert result[..] == w;
  }

  class CuePointMonitor {
    var fsmPlayer: FsmPlayer
    var safeCheckForAdcall: bool
    var safeCheckForCue: bool
    var cuePoints: array?<int>
    var adCallPoints: array?<int>
    var currentQueuePointPos: int
    /** `networkingAhead()`: how many milliseconds before a cue point the ad call is made. */
    const networkingAhead: int

    ghost function Model(): M.Monitor
      reads this, cuePoints, adCallPoints
    {
      M.Monitor(safeCheckForAdcall, safeCheckForCue, TableView(cuePoints), TableView(adCallPoints),
        currentQueuePointPos)
    }

    /** The ad-call table is present exactly when the cue table is, and is derived from it;
        the matched index is -1 or an index of the cue table. */
    ghost predicate Valid()
      reads this, cuePoints, adCallPoints
    {
      M.Consistent(Model(), networkingAhead)
    }

    constructor (fsmPlayer: FsmPlayer, networkingAhead: int)
      ensures this.fsmPlayer == fsmPlayer && this.networkingAhead == networkingAhead
      ensures Model() == M.Initial() && Valid()
    {
      this.fsmPlayer := fsmPlayer;
      this.networkingAhead := networkingAhead;
      safeCheckForAdcall := true;
      safeCheckForCue := true;
      cuePoints := null;
      adCallPoints := null;
      currentQueuePointPos := -1;
    }

    /** `setQuePoints`. */
    method SetQuePoints(points: array?<int>)
      modifies this`currentQueuePointPos, this`cuePoints, this`adCallPoints
      ensures Valid()
      ensures Model() == M.SetQuePoints(old(Model()), TableView(points), networkingAhead)
      ensures cuePoints == points
      ensures adCallPoints != null ==> fresh(adCallPoints)
    {
      currentQueuePointPos := -1;
      if points == null {
        cuePoints := null;
        adCallPoints := null;
        return;
      }
      cuePoints := points;
      adCallPoints := GetAddCallPoints(points);
    }

    /** `getAddCallPoints`: a fresh array, entry by entry the cue point less the lookahead,
        floored at zero. */
    method GetAddCallPoints(points: array<int>) returns (result: array<int>)
      ensures fresh(result)
      ensures result[..] == AdCallTable(points[..], networkingAhead)
    {
      result := new int[points.Length];
      for i := 0 to points.Length
        invariant forall k :: 0 <= k < i ==> result[k] == AdCallTable(points[..], networkingAhead)[k]
      {
        var temp := points[i] - networkingAhead;
        result[i] := if temp > 0 then temp else 0;
      }
      assert result[..] == AdCallTable(points[..], networkingAhead);
    }

    /** `remoteShowedCuePoints`. */
    method RemoteShowedCuePoints()
      requires Valid()
      modifies this`currentQueuePointPos, this`cuePoints, this`adCallPoints
      ensures Valid()
      ensures Model() == M.RemoteShowedCuePoints(old(Model()), networkingAhead)
    {
      if cuePoints == null || cuePoints.Length <= 0 {
        return;
      }
      if cuePoints.Length == 1 {
        SetQuePoints(null);
        return;
      }
      var newCuePoints := RemoveElementFromArray(cuePoints, currentQueuePointPos);
      if newCuePoints != null {
        SetQuePoints(newCuePoints);
      }
    }

    /** `isProgressActionable`: records the matched index (or -1) and says whether to act. */
    method IsProgressActionable(table: array?<int>, currentProgress: int) returns (actionable: bool)
      modifies this`currentQueuePointPos
      ensures M.IsProgressActionable(TableView(table), currentProgress) == M.Lookup(actionable, currentQueuePointPos)
    {
      if table == null || table.Length <= 0 {
        currentQueuePointPos := -1;
        return false;
      }
      var resultPos := BinarySerchWithRange(table, currentProgress);
      if resultPos < 0 {
        currentQueuePointPos := -1;
        return false;
      }
      currentQueuePointPos := resultPos;
      return true;
    }

    /** `preformAdCallIfNecessary`. */
    method PreformAdCallIfNecessary(milliseconds: int)
      requires Valid()
      modifies this`safeCheckForAdcall, this`currentQueuePointPos, fsmPlayer
      ensures Valid()
      ensures var o := M.PreformAdCallIfNecessary(old(Model()), milliseconds, networkingAhead);
        Model() == o.monitor && fsmPlayer.calls == old(fsmPlayer.calls) + o.calls
      ensures fsmPlayer.adPlaying == old(fsmPlayer.adPlaying)
    {
      var actionable := IsProgressActionable(adCallPoints, milliseconds);
      if actionable && safeCheckForAdcall {
        safeCheckForAdcall := false;
        if currentQueuePointPos >= 0 {
          var currentQueuePoint := cuePoints[currentQueuePointPos];
          fsmPlayer.UpdateCuePointForRetriever(currentQueuePoint);
          fsmPlayer.Transit(MAKE_AD_CALL);
          return;
        }
      } else {
        var again := IsProgressActionable(adCallPoints, milliseconds);
        if !again {
          safeCheckForAdcall := true;
        }
      }
    }

    /** `preformShowAdIfNecessary`. */
    method PreformShowAdIfNecessary(milliseconds: int)
      requires Valid()
      modifies this`safeCheckForCue, this`currentQueuePointPos, fsmPlayer
      ensures Valid()
      ensures var o := M.PreformShowAdIfNecessary(old(Model()), milliseconds);
        Model() == o.monitor && fsmPlayer.calls == old(fsmPlayer.calls) + o.calls
      ensures fsmPlayer.adPlaying == old(fsmPlayer.adPlaying)
    {
      var actionable := IsProgressActionable(cuePoints, milliseconds);
      if actionable && safeCheckForCue {
        safeCheckForCue := false;
        fsmPlayer.Transit(SHOW_ADS);
        return;
      } else {
        var again := IsProgressActionable(cuePoints, milliseconds);
        if !again {
          safeCheckForCue := true;
        }
      }
    }

    /** `onMovieProgress`: ignored while an ad plays; otherwise the ad-call check, then the
        show-ad check. */
    method OnMovieProgress(milliseconds: int, durationMillis: int)
      requires Valid()
      modifies this`safeCheckForAdcall, this`safeCheckForCue, this`currentQueuePointPos, fsmPlayer
      ensures Valid()
      ensures var o := M.OnMovieProgress(old(Model()), old(fsmPlayer.adPlaying), milliseconds, networkingAhead);
        Model() == o.monitor && fsmPlayer.calls == old(fsmPlayer.calls) + o.calls
      ensures old(fsmPlayer.adPlaying) ==> Model() == old(Model()) && fsmPlayer.calls == old(fsmPlayer.calls)
    {
      if fsmPlayer.adPlaying {
        return;
      }
      PreformAdCallIfNecessary(milliseconds);
      PreformShowAdIfNecessary(milliseconds);
    }
  }
}
