/** Id allocation for POS devices and merchants (paytacapos/models.py). */
module PosIds {
  import opened Prelude

  const POSID_LIMIT: nat := 10000

  ghost predicate IsMax(ids: seq<int>, m: int) {
    m in ids && forall id | id in ids :: id <= m
  }

  /** The MAX aggregate over the wallet's devices; NULL when there are none. */
  method MaxPosid(ids: seq<int>) returns (max: Option<int>)
    ensures max.None? <==> ids == []
    ensures max.Some? ==> IsMax(ids, max.value)
  {
    max := None;
    for i := 0 to |ids|
      invariant max.None? <==> i == 0
      invariant max.Some? ==> IsMax(ids[..i], max.value)
    {
      if max.None? || max.value < ids[i] {
        max := Some(ids[i]);
      }
      assert ids[..i + 1] == ids[..i] + [ids[i]];
    }
    assert ids[..|ids|] == ids;
  }

  /** A list that holds every id below n has at least n elements. */
  lemma {:induction false} Pigeonhole(ids: seq<int>, n: nat)
    requires forall i | 0 <= i < n :: i in ids
    ensures n <= |ids|
  {
    if n > 0 {
      assert n - 1 in ids;
      var k :| 0 <= k < |ids| && ids[k] == n - 1;
      var rest := ids[..k] + ids[k + 1..];
      forall i | 0 <= i < n - 1
        ensures i in rest
      {
        assert i in ids;
        var j :| 0 <= j < |ids| && ids[j] == i;
        assert rest[if j < k then j else j - 1] == i;
      }
      Pigeonhole(rest, n - 1);
    }
  }

  /** PosDevice.find_new_posid, given the posids of the wallet's devices.
      The last clause says exactly when the answer is not a usable id. */
  method FindNewPosid(posids: seq<int>) returns (posid: Option<int>)
    ensures posid.Some? ==> posid.value !in posids && posid.value < POSID_LIMIT
    ensures posid.None? <==> forall i | 0 <= i < 10000 :: i in posids
    ensures |posids| < 10000 ==> posid.Some?
    ensures forall max | IsMax(posids, max) && max + 1 < POSID_LIMIT :: posid == Some(max + 1)
    ensures posids == [] || (exists max :: IsMax(posids, max) && max + 1 >= POSID_LIMIT) ==>
              posid.Some? ==> 0 <= posid.value && forall i | 0 <= i < posid.value :: i in posids
    ensures posid.Some? ==> (posid.value < 0 <==> posids != [] && forall id | id in posids :: id < -1)
  {
    var last := MaxPosid(posids);
    if last.Some? && last.value + 1 < POSID_LIMIT {
      assert POSID_LIMIT - 1 !in posids;
      return Some(last.value + 1);
    }
    for i := 0 to POSID_LIMIT
      invariant forall j | 0 <= j < i :: j in posids
    {
      if i !in posids {
        return Some(i);
      }
    }
    Pigeonhole(posids, POSID_LIMIT);
    return None;
  }

  /** Merchant rows ordered by index: ascending, NULLs last. */
  ghost predicate OrderedByIndex(indices: seq<Option<int>>) {
    forall i, j | 0 <= i < j < |indices| ::
      indices[j].Some? ==> indices[i].Some? && indices[i].value <= indices[j].value
  }

  ghost predicate DistinctNonNegative(indices: seq<Option<int>>) {
    && (forall i | 0 <= i < |indices| && indices[i].Some? :: 0 <= indices[i].value)
    && (forall i, j | 0 <= i < j < |indices| && indices[i].Some? && indices[j].Some? ::
          indices[i].value != indices[j].value)
  }

  /** Length of the longest prefix in which row i has index i. */
  function LeadingRun(indices: seq<Option<int>>, from: nat := 0): nat
    requires from <= |indices|
    decreases |indices| - from
  {
    if from < |indices| && indices[from] == Some(from) then LeadingRun(indices, from + 1) else from
  }

  /** Merchant.get_latest_merchant_index over the ordered active and verified merchants. */
  method GetLatestMerchantIndex(indices: seq<Option<int>>) returns (index: nat)
    ensures index == LeadingRun(indices)
  {
    index := 0;
    for i := 0 to |indices|
      invariant index == i
      invariant LeadingRun(indices) == LeadingRun(indices, i)
    {
      if indices[i] != Some(index) {
        break;
      }
      index := index + 1;
    }
  }

  lemma {:induction false} LeadingRunShape(indices: seq<Option<int>>, from: nat)
    requires from <= |indices|
    requires forall k | 0 <= k < from :: indices[k] == Some(k)
    ensures LeadingRun(indices, from) <= |indices|
    ensures forall k | 0 <= k < LeadingRun(indices, from) :: indices[k] == Some(k)
    ensures LeadingRun(indices, from) < |indices| ==>
              indices[LeadingRun(indices, from)] != Some(LeadingRun(indices, from) as int)
    decreases |indices| - from
  {
    if from < |indices| && indices[from] == Some(from) {
      LeadingRunShape(indices, from + 1);
    }
  }

  /** On distinct non-negative indices the answer is the least index not in use. */
  lemma LatestMerchantIndexIsLeastUnused(indices: seq<Option<int>>)
    requires OrderedByIndex(indices) && DistinctNonNegative(indices)
    ensures var r: int := LeadingRun(indices);
            Some(r) !in indices && forall k | 0 <= k < r :: Some(k) in indices
  {
    LeadingRunShape(indices, 0);
    var r: int := LeadingRun(indices);
    forall k | 0 <= k < r
      ensures Some(k) in indices
    {
      assert indices[k] == Some(k);
    }
    if r < |indices| && indices[r].Some? {
      var v := indices[r].value;
      assert forall k: int | 0 <= k < r :: indices[k] == Some(k) && k != v;
      assert r < v;
      assert forall j | r <= j < |indices| && indices[j].Some? :: r < indices[j].value;
    }
  }

  /** A negative index is in use, and 0 is too. */
  ghost predicate NegativeBeforeZero(indices: seq<Option<int>>) {
    Some(0) in indices && exists j :: 0 <= j < |indices| && IsNegative(indices[j])
  }

  predicate IsNegative(index: Option<int>) {
    index.Some? && index.value < 0
  }

  /** An index occurs twice, and every index from 0 up to the one after it is in use. */
  ghost predicate RepeatBelowUsed(indices: seq<Option<int>>, v: nat) {
    && Twice(indices, v)
    && forall k | 0 <= k <= v + 1 :: Some(k) in indices
  }

  ghost predicate Twice(indices: seq<Option<int>>, v: int) {
    exists i, j :: 0 <= i < j < |indices| && indices[i] == Some(v) && indices[j] == Some(v)
  }

  lemma NegativeStopsAtZero(indices: seq<Option<int>>, j: nat)
    requires OrderedByIndex(indices) && j < |indices| && IsNegative(indices[j])
    ensures LeadingRun(indices) == 0
  {
    assert indices[0].Some? && indices[0].value <= indices[j].value;
  }

  /** A repeated index ends the run at the latest right after it. */
  lemma RunEndsAtRepeat(indices: seq<Option<int>>, v: nat)
    requires OrderedByIndex(indices) && Twice(indices, v)
    ensures LeadingRun(indices) <= v + 1
  {
    LeadingRunShape(indices, 0);
    var r := LeadingRun(indices);
    var i, j :| 0 <= i < j < |indices| && indices[i] == Some(v) && indices[j] == Some(v);
    assert (i < r ==> i == v) && (j < r ==> j == v);
    assert r <= j;
    if r > 0 {
      assert indices[r - 1] == Some(r - 1) && r - 1 <= v;
    }
  }

  lemma UsedAnswerHasCause(indices: seq<Option<int>>)
    requires OrderedByIndex(indices) && Some(LeadingRun(indices) as int) in indices
    ensures NegativeBeforeZero(indices) || exists v: nat :: RepeatBelowUsed(indices, v)
  {
    LeadingRunShape(indices, 0);
    var r := LeadingRun(indices);
    var j :| 0 <= j < |indices| && indices[j] == Some(r as int);
    assert r < j && indices[r].Some? && indices[r].value < r;
    if r == 0 {
      assert IsNegative(indices[0]);
    } else {
      assert indices[r - 1] == Some(r - 1) && indices[r] == Some(r - 1);
      assert Twice(indices, r - 1);
      forall k | 0 <= k <= r
        ensures Some(k) in indices
      {
        assert k < r ==> indices[k] == Some(k);
      }
      assert RepeatBelowUsed(indices, r - 1);
    }
  }

  /** On ordered rows the answer is an index in use exactly when a negative index hides a used 0,
      or a repeated index hides a used successor; every index below the answer is in use anyway. */
  lemma AnswerIsUsedExactlyWhenHidden(indices: seq<Option<int>>)
    requires OrderedByIndex(indices)
    ensures Some(LeadingRun(indices) as int) in indices <==>
              NegativeBeforeZero(indices) || exists v: nat :: RepeatBelowUsed(indices, v)
    ensures forall k | 0 <= k < LeadingRun(indices) :: Some(k) in indices
  {
    LeadingRunShape(indices, 0);
    forall k | 0 <= k < LeadingRun(indices)
      ensures Some(k) in indices
    {
      assert indices[k] == Some(k);
    }
    if NegativeBeforeZero(indices) {
      var j :| 0 <= j < |indices| && IsNegative(indices[j]);
      NegativeStopsAtZero(indices, j);
    } else if exists v: nat :: RepeatBelowUsed(indices, v) {
      var v: nat :| RepeatBelowUsed(indices, v);
      RunEndsAtRepeat(indices, v);
    } else if Some(LeadingRun(indices) as int) in indices {
      UsedAnswerHasCause(indices);
    }
  }

  /** Both causes occur: [0, 0, 1] answers 1, and [-1, 0] answers 0. */
  lemma UsedIndicesAreReturned()
    ensures LeadingRun([Some(0), Some(0), Some(1)]) == 1 && LeadingRun([Some(-1), Some(0)]) == 0
  {
    var repeated: seq<Option<int>> := [Some(0), Some(0), Some(1)];
    assert repeated[1] != Some(1);
    assert LeadingRun(repeated, 1) == 1;
  }
}
