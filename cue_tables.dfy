/**
 * The two table computations of `CuePointMonitor`: the ad-call table derived from the
 * cue points, and the removal of one element from a table.
 */
module CueTables {
  import opened Wrappers
  import opened RangeSearch

  /** `getAddCallPoints`: each cue point moved `ahead` milliseconds earlier, never below 0. */
  function AdCallTable(cuePoints: seq<int>, ahead: int): (r: seq<int>)
  {
    seq(|cuePoints|, i requires 0 <= i < |cuePoints| =>
      if cuePoints[i] - ahead > 0 then cuePoints[i] - ahead else 0)
  }

  /** The derived table pairs 1:1 with the cue table, every entry is the cue point less the
      lookahead floored at zero, it never comes after its cue point, and it keeps order. */
  lemma AdCallTableProperties(cuePoints: seq<int>, ahead: int)
    ensures |AdCallTable(cuePoints, ahead)| == |cuePoints|
    ensures forall i :: 0 <= i < |cuePoints| ==>
      AdCallTable(cuePoints, ahead)[i] >= 0 &&
      AdCallTable(cuePoints, ahead)[i] >= cuePoints[i] - ahead &&
      (AdCallTable(cuePoints, ahead)[i] == cuePoints[i] - ahead || AdCallTable(cuePoints, ahead)[i] == 0)
    ensures ahead >= 0 ==> forall i :: 0 <= i < |cuePoints| && cuePoints[i] >= 0 ==>
      AdCallTable(cuePoints, ahead)[i] <= cuePoints[i]
    ensures Sorted(cuePoints) ==> Sorted(AdCallTable(cuePoints, ahead))
  {
  }

  /**
   * What the copy loop of `removeElementFromArray` yields for a table of at least two
   * elements and a position `keyPos >= 0`: the table without `keyPos`, or, when
   * `keyPos` is past the last index, the table without its last element.
   */
  function Without(s: seq<int>, keyPos: nat): seq<int>
    requires |s| >= 1
  {
    if keyPos < |s| then s[..keyPos] + s[keyPos + 1..] else s[..|s| - 1]
  }

  /** `removeElementFromArray` on `Option` tables: `None` for an absent table, a negative
      position or a table of at most one element. */
  function RemoveElement(table: Option<seq<int>>, keyPos: int): Option<seq<int>>
  {
    if table.None? || keyPos < 0 || |table.value| <= 1 then None
    else Some(Without(table.value, keyPos))
  }

  /** Removing an in-range position drops exactly that element: the result is one shorter,
      agrees with the input before it, is shifted by one after it, and has lost only that
      one occurrence. */
  lemma WithoutRemovesOne(s: seq<int>, keyPos: nat)
    requires keyPos < |s|
    ensures |Without(s, keyPos)| == |s| - 1
    ensures forall i :: 0 <= i < keyPos ==> Without(s, keyPos)[i] == s[i]
    ensures forall i :: keyPos <= i < |s| - 1 ==> Without(s, keyPos)[i] == s[i + 1]
    ensures multiset(Without(s, keyPos)) + multiset{s[keyPos]} == multiset(s)
  {
    assert s == s[..keyPos] + [s[keyPos]] + s[keyPos + 1..];
  }

  /** Removal keeps a sorted table sorted. */
  lemma WithoutKeepsSorted(s: seq<int>, keyPos: nat)
    requires |s| >= 1 && Sorted(s)
    ensures Sorted(Without(s, keyPos))
  {
    var r := Without(s, keyPos);
    if keyPos < |s| {
      WithoutRemovesOne(s, keyPos);
      forall i, j | 0 <= i < j < |r|
        ensures r[i] <= r[j]
      {
        var i' := if i < keyPos then i else i + 1;
        var j' := if j < keyPos then j else j + 1;
        assert r[i] == s[i'] && r[j] == s[j'];
      }
    }
  }

  /** The result of `RemoveElement`: absent exactly in the three rejected cases, otherwise
      one element shorter. */
  lemma RemoveElementCases(table: Option<seq<int>>, keyPos: int)
    ensures RemoveElement(table, keyPos).None? <==>
      table.None? || keyPos < 0 || |table.value| <= 1
    ensures RemoveElement(table, keyPos).Some? ==>
      |RemoveElement(table, keyPos).value| == |table.value| - 1
    ensures RemoveElement(table, keyPos).Some? && keyPos < |table.value| ==>
      RemoveElement(table, keyPos).value == table.value[..keyPos] + table.value[keyPos + 1..]
  {
  }
}
