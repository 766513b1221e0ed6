/**
 * Post-processing of the hits returned for a content search: every hit's `data` is rewritten
 * by the result processor, hits whose new `data` is `None` are dropped and counted.
 */
module ResultProcessing {
  import opened Wrappers
  import opened SearchTypes

  /** Every hit with its `data` replaced by what the processor makes of it. */
  function Rewrite(hits: seq<Hit>, searchTerm: string, user: Option<UserId>, process: Processor): (out: seq<Hit>)
    ensures |out| == |hits|
    ensures forall i :: 0 <= i < |out| ==>
      out[i].meta == hits[i].meta && out[i].data == process(hits[i].data, searchTerm, user)
  {
    seq(|hits|, i requires 0 <= i < |hits| => hits[i].(data := process(hits[i].data, searchTerm, user)))
  }

  /** The hits whose `data` is not `None`, in their original order. */
  function Visible(hits: seq<Hit>): (kept: seq<Hit>)
    ensures |kept| <= |hits|
    ensures forall h :: h in kept ==> h in hits && h.data != Null
  {
    if hits == [] then []
    else (if hits[0].data == Null then [] else [hits[0]]) + Visible(hits[1..])
  }

  /** How many hits have `None` as their `data`. */
  function DeniedCount(hits: seq<Hit>): (count: nat)
    ensures count <= |hits|
    ensures count == 0 <==> forall i :: 0 <= i < |hits| ==> hits[i].data != Null
  {
    if hits == [] then 0
    else (if hits[0].data == Null then 1 else 0) + DeniedCount(hits[1..])
  }

  /** Every hit is either kept or counted as denied, never both and never neither. */
  lemma {:induction false} VisiblePlusDenied(hits: seq<Hit>)
    ensures |Visible(hits)| + DeniedCount(hits) == |hits|
  {
    if hits != [] {
      VisiblePlusDenied(hits[1..]);
    }
  }

  function Shift(idx: seq<nat>): (r: seq<nat>)
  {
    seq(|idx|, k requires 0 <= k < |idx| => idx[k] + 1)
  }

  /** The positions, in increasing order, of the hits whose `data` is not `None`. */
  ghost function KeptIndices(hits: seq<Hit>): seq<nat>
  {
    if hits == [] then []
    else
      var rest := Shift(KeptIndices(hits[1..]));
      if hits[0].data == Null then rest else [0] + rest
  }

  lemma ShiftMembership(idx: seq<nat>, i: int)
    ensures i in Shift(idx) <==> 1 <= i && i - 1 in idx
  {
    if 1 <= i && i - 1 in idx {
      var k :| 0 <= k < |idx| && idx[k] == i - 1;
      assert Shift(idx)[k] == i;
    }
  }

  /** The kept positions lie inside the list and strictly increase. */
  lemma {:induction false} KeptIndicesIncrease(hits: seq<Hit>)
    ensures forall k :: 0 <= k < |KeptIndices(hits)| ==> KeptIndices(hits)[k] < |hits|
    ensures forall k, l :: 0 <= k < l < |KeptIndices(hits)| ==> KeptIndices(hits)[k] < KeptIndices(hits)[l]
  {
    if hits != [] {
      var tail := hits[1..];
      KeptIndicesIncrease(tail);
      var t := KeptIndices(tail);
      var idx, s := KeptIndices(hits), Shift(t);
      assert forall k :: 0 <= k < |t| ==> t[k] < |tail|;
      assert forall k, l :: 0 <= k < l < |t| ==> t[k] < t[l];
      assert |s| == |t| && forall k :: 0 <= k < |s| ==> s[k] == t[k] + 1;
      if hits[0].data != Null {
        assert forall k :: 1 <= k < |idx| ==> idx[k] == s[k - 1];
      }
    }
  }

  /** A position is kept exactly when its hit's `data` is not `None`. */
  lemma {:induction false} KeptIndicesExact(hits: seq<Hit>)
    ensures forall i :: 0 <= i < |hits| ==> (hits[i].data != Null <==> i in KeptIndices(hits))
  {
    if hits != [] {
      var tail := hits[1..];
      KeptIndicesExact(tail);
      var s := Shift(KeptIndices(tail));
      forall i | 0 <= i < |hits|
        ensures hits[i].data != Null <==> i in KeptIndices(hits)
      {
        ShiftMembership(KeptIndices(tail), i);
        if 1 <= i {
          assert hits[i] == tail[i - 1];
        }
      }
    }
  }

  /** The k-th hit `Visible` keeps is the hit at the k-th kept position. */
  lemma {:induction false} VisibleSelectsKept(hits: seq<Hit>)
    ensures var idx := KeptIndices(hits);
      && |idx| == |Visible(hits)|
      && (forall k :: 0 <= k < |idx| ==> idx[k] < |hits| && Visible(hits)[k] == hits[idx[k]])
  {
    KeptIndicesIncrease(hits);
    if hits != [] {
      var tail := hits[1..];
      VisibleSelectsKept(tail);
      var idx := KeptIndices(hits);
      var s := Shift(KeptIndices(tail));
      if hits[0].data == Null {
        forall k | 0 <= k < |idx|
          ensures Visible(hits)[k] == hits[idx[k]]
        {
          assert Visible(hits)[k] == Visible(tail)[k];
        }
      } else {
        forall k | 1 <= k < |idx|
          ensures Visible(hits)[k] == hits[idx[k]]
        {
          assert Visible(hits)[k] == Visible(tail)[k - 1];
          assert idx[k] == s[k - 1];
        }
      }
    }
  }

  /**
   * `Visible` is an order-preserving selection: its k-th hit is the hit at the k-th kept
   * position, the positions strictly increase (no reordering, no duplicates), and a position
   * is kept exactly when its hit's `data` is not `None`.
   */
  lemma VisibleIsOrderedSelection(hits: seq<Hit>)
    ensures var idx := KeptIndices(hits);
      && |idx| == |Visible(hits)|
      && (forall k :: 0 <= k < |idx| ==> idx[k] < |hits| && Visible(hits)[k] == hits[idx[k]])
      && (forall k, l :: 0 <= k < l < |idx| ==> idx[k] < idx[l])
      && (forall i :: 0 <= i < |hits| ==> (hits[i].data != Null <==> i in idx))
  {
    KeptIndicesIncrease(hits);
    KeptIndicesExact(hits);
    VisibleSelectsKept(hits);
  }

  /** Every hit whose `data` is not `None` survives `Visible` unchanged, in the same order. */
  lemma {:induction false} VisibleOfAllVisible(hits: seq<Hit>)
    requires forall i :: 0 <= i < |hits| ==> hits[i].data != Null
    ensures Visible(hits) == hits && DeniedCount(hits) == 0
  {
    if hits != [] {
      VisibleOfAllVisible(hits[1..]);
      assert [hits[0]] + hits[1..] == hits;
    }
  }

  /**
   * What post-processing keeps: the k-th kept hit is the hit at an increasing position of the
   * engine's list, with the engine's metadata and the processor's output as `data`, and that
   * output is not `None`; a hit is dropped exactly when the processor returns `None` for it.
   */
  lemma PostProcessingKeepsProcessedHits(hits: seq<Hit>, searchTerm: string, user: Option<UserId>, process: Processor)
    ensures var out := Rewrite(hits, searchTerm, user, process);
      var kept, idx := Visible(out), KeptIndices(out);
      && |kept| == |idx|
      && (forall k :: 0 <= k < |kept| ==>
            && idx[k] < |hits|
            && kept[k].meta == hits[idx[k]].meta
            && kept[k].data == process(hits[idx[k]].data, searchTerm, user)
            && kept[k].data != Null)
      && (forall k, l :: 0 <= k < l < |idx| ==> idx[k] < idx[l])
      && (forall i :: 0 <= i < |hits| ==> (process(hits[i].data, searchTerm, user) != Null <==> i in idx))
  {
    var out := Rewrite(hits, searchTerm, user, process);
    VisibleIsOrderedSelection(out);
  }

  /**
   * A processor that hands every hit's `data` back unchanged (and never `None`) leaves the
   * results exactly as the engine returned them, with nothing denied.
   */
  lemma UnchangedDataRoundTrip(hits: seq<Hit>, searchTerm: string, user: Option<UserId>, process: Processor)
    requires forall i :: 0 <= i < |hits| ==>
      hits[i].data != Null && process(hits[i].data, searchTerm, user) == hits[i].data
    ensures Visible(Rewrite(hits, searchTerm, user, process)) == hits
    ensures DeniedCount(Rewrite(hits, searchTerm, user, process)) == 0
  {
    assert Rewrite(hits, searchTerm, user, process) == hits;
    VisibleOfAllVisible(hits);
  }

  /**
   * The post-processing loop: rewrite each hit's `data` in place, then count the hits whose
   * `data` became `None` and keep the others.
   */
  method ProcessResults(hits: seq<Hit>, searchTerm: string, user: Option<UserId>, process: Processor)
    returns (kept: seq<Hit>, deniedCount: nat)
    ensures kept == Visible(Rewrite(hits, searchTerm, user, process))
    ensures deniedCount == DeniedCount(Rewrite(hits, searchTerm, user, process))
    ensures |kept| + deniedCount == |hits|
  {
    var results := hits;
    for i := 0 to |results|
      invariant |results| == |hits|
      invariant forall k :: 0 <= k < i ==> results[k] == hits[k].(data := process(hits[k].data, searchTerm, user))
      invariant forall k :: i <= k < |results| ==> results[k] == hits[k]
    {
      results := results[i := results[i].(data := process(results[i].data, searchTerm, user))];
    }
    assert results == Rewrite(hits, searchTerm, user, process);
    deniedCount := DeniedCount(results);
    kept := Visible(results);
    VisiblePlusDenied(results);
  }
}
