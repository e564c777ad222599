/** Step 5 of the forward pass on the data-loader worker: scale every
    returned expert output by its router probability and add up the k
    outputs that belong to one input token. */
module Combine {
  import opened Seqs
  import opened Routing

  /** The two operations on feature vectors the combiner uses: multiply by a
      probability (`x *= probs`) and add (`.sum(dim=0)`). */
  datatype Ops<!V, !P> = Ops(scale: (V, P) -> V, add: (V, V) -> V)

  /** `x *= torch.concatenate(probs_per_expert).view(-1, 1)` */
  function ScaleAll<V, P>(ops: Ops<V, P>, xs: seq<V>, ps: seq<P>): (r: seq<V>)
    requires |xs| == |ps|
    ensures |r| == |xs|
  {
    seq(|xs|, q requires 0 <= q < |xs| => ops.scale(xs[q], ps[q]))
  }

  /** The in-place multiplication: row `q` is scaled by probability `q`, and
      nothing else changes. */
  method ScaleInPlace<V, P>(ops: Ops<V, P>, x: array<V>, ps: seq<P>)
    requires x.Length == |ps|
    modifies x
    ensures x[..] == ScaleAll(ops, old(x[..]), ps)
  {
    var q := 0;
    while q < x.Length
      invariant 0 <= q <= x.Length
      invariant forall p :: 0 <= p < q ==> x[p] == ops.scale(old(x[p]), ps[p])
      invariant forall p :: q <= p < x.Length ==> x[p] == old(x[p])
    {
      x[q] := ops.scale(x[q], ps[q]);
      q := q + 1;
    }
  }

  /** `x[send_ids[:,-1] == s]`: the rows whose top-k slot is `s`, in order. */
  function SelectSlot<V>(xs: seq<V>, ids: seq<Meta>, s: nat): (r: seq<V>)
    requires |xs| == |ids|
    ensures |r| == SlotCount(ids, s)
    decreases |xs|
  {
    if xs == [] then []
    else
      var n := |xs| - 1;
      SelectSlot(xs[..n], ids[..n], s) + (if ids[n].slot == s then [xs[n]] else [])
  }

  /** The positions whose top-k slot is `s`, ascending. */
  function SlotPositions(ids: seq<Meta>, s: nat): (ps: seq<nat>)
    ensures |ps| == SlotCount(ids, s)
    ensures forall n :: 0 <= n < |ps| ==> ps[n] < |ids| && ids[ps[n]].slot == s
    ensures forall n, n' :: 0 <= n < n' < |ps| ==> ps[n] < ps[n']
    ensures forall q :: 0 <= q < |ids| && ids[q].slot == s ==> q in ps
    decreases |ids|
  {
    if ids == [] then []
    else
      var n := |ids| - 1;
      var front := SlotPositions(ids[..n], s);
      front + (if ids[n].slot == s then [n] else [])
  }

  /** Selecting slot `s` is a stable filter: its `n`-th row is the row at the
      `n`-th position whose slot is `s`. */
  lemma {:induction false} SelectSlotAt<V>(xs: seq<V>, ids: seq<Meta>, s: nat)
    requires |xs| == |ids|
    ensures forall n :: 0 <= n < SlotCount(ids, s) ==> SelectSlot(xs, ids, s)[n] == xs[SlotPositions(ids, s)[n]]
    decreases |xs|
  {
    if xs != [] {
      var n := |xs| - 1;
      SelectSlotAt(xs[..n], ids[..n], s);
    }
  }

  /** When every position has slot 0, slot 0 selects everything. */
  lemma {:induction false} OnlySlotZero(ids: seq<Meta>)
    requires SlotCount(ids, 0) == |ids|
    ensures SlotPositions(ids, 0) == seq(|ids|, q requires 0 <= q < |ids| => q)
    decreases |ids|
  {
    if ids != [] {
      var n := |ids| - 1;
      SlotCountBound(ids[..n], 0);
      OnlySlotZero(ids[..n]);
    }
  }

  lemma {:induction false} SlotCountBound(ids: seq<Meta>, s: nat)
    ensures SlotCount(ids, s) <= |ids|
    decreases |ids|
  {
    if ids != [] {
      SlotCountBound(ids[..|ids| - 1], s);
    }
  }

  /** `.sum(dim=0)` over a stack: a left fold of `add`. */
  function Fold<V, P>(ops: Ops<V, P>, vs: seq<V>): V
    requires |vs| >= 1
  {
    if |vs| == 1 then vs[0] else ops.add(Fold(ops, vs[..|vs| - 1]), vs[|vs| - 1])
  }

  /** `torch.stack` needs every slot to appear equally often. */
  predicate EvenSlots(ids: seq<Meta>, k: nat, n: nat)
  {
    forall s :: 0 <= s < k ==> SlotCount(ids, s) == n
  }

  /** `torch.stack([x[send_ids[:,-1] == s] for s in range(k)]).sum(dim=0)` */
  function SumSlots<V, P>(ops: Ops<V, P>, xs: seq<V>, ids: seq<Meta>, k: nat, n: nat): (r: seq<V>)
    requires |xs| == |ids| && k >= 1 && EvenSlots(ids, k, n)
    ensures |r| == n
  {
    seq(n, q requires 0 <= q < n => Fold(ops, seq(k, s requires 0 <= s < k => SelectSlot(xs, ids, s)[q])))
  }

  /** Row `q` of the stacked sum adds, slot by slot, the row at the `q`-th
      position of each slot. */
  lemma SumSlotsAt<V, P>(ops: Ops<V, P>, xs: seq<V>, ids: seq<Meta>, k: nat, n: nat, q: nat)
    requires |xs| == |ids| && k >= 1 && EvenSlots(ids, k, n) && q < n
    ensures forall s :: 0 <= s < k ==> SlotPositions(ids, s)[q] < |xs|
    ensures SumSlots(ops, xs, ids, k, n)[q] ==
      Fold(ops, seq(k, s requires 0 <= s < k => xs[SlotPositions(ids, s)[q]]))
  {
    forall s | 0 <= s < k
      ensures SelectSlot(xs, ids, s)[q] == xs[SlotPositions(ids, s)[q]]
    {
      SelectSlotAt(xs, ids, s);
    }
    assert seq(k, s requires 0 <= s < k => SelectSlot(xs, ids, s)[q]) ==
      seq(k, s requires 0 <= s < k => xs[SlotPositions(ids, s)[q]]);
  }

  lemma {:induction false} RowFits(i: nat, b: nat, t: nat)
    requires i < b
    ensures i * t + t <= b * t
    decreases b - i
  {
    MulStep(i, t);
    if i + 1 < b {
      RowFits(i + 1, b, t);
      MulStep(i + 1, t);
    }
  }

  /** `view(B, T, C)`: cut a flat buffer into `b` rows of `t`, row-major. */
  function View<V>(flat: seq<V>, b: nat, t: nat): (r: seq<seq<V>>)
    requires |flat| == b * t
    ensures |r| == b && forall i :: 0 <= i < b ==> |r[i]| == t
  {
    seq(b, i requires 0 <= i < b => ViewRow(flat, b, t, i))
  }

  /** Row `i` of the reshape. */
  function ViewRow<V>(flat: seq<V>, b: nat, t: nat, i: nat): (row: seq<V>)
    requires |flat| == b * t && i < b
    ensures |row| == t
  {
    var start := i * t;
    RowFits(i, b, t);
    flat[start..start + t]
  }

  /** The reshape moves nothing: entry `(i, j)` is flat entry `i·t + j`. */
  lemma ViewAt<V>(flat: seq<V>, b: nat, t: nat, i: nat, j: nat)
    requires |flat| == b * t && i < b && j < t
    ensures i * t + j < |flat| && View(flat, b, t)[i][j] == flat[i * t + j]
  {
    RowFits(i, b, t);
  }

  /** Lines :111-115 as written: scale, sum over the slots when k > 1, and
      reinterpret the buffer, which is in send (expert-major) order, as B×T. */
  function CombineAsWritten<V, P>(ops: Ops<V, P>, returned: seq<V>, probs: seq<P>, ids: seq<Meta>,
                                  k: nat, b: nat, t: nat): (out: seq<seq<V>>)
    requires |returned| == |probs| == |ids| == b * (t * k) && k >= 1 && EvenSlots(ids, k, b * t)
    ensures |out| == b && forall i :: 0 <= i < b ==> |out[i]| == t
  {
    var x := ScaleAll(ops, returned, probs);
    if k > 1 then View(SumSlots(ops, x, ids, k, b * t), b, t)
    else View(x, b, t)
  }

  /** Gather the entries at positions `qs`. */
  function Gather<V>(xs: seq<V>, qs: seq<nat>): (r: seq<V>)
    requires forall s :: 0 <= s < |qs| ==> qs[s] < |xs|
    ensures |r| == |qs|
  {
    seq(|qs|, s requires 0 <= s < |qs| => xs[qs[s]])
  }

  /** For each slot `s < k`, the position in send order of the `n`-th entry
      whose slot is `s`. */
  function Ranks(ids: seq<Meta>, k: nat, n: nat): (qs: seq<nat>)
    requires forall s :: 0 <= s < k ==> n < SlotCount(ids, s)
    ensures |qs| == k
    ensures forall s :: 0 <= s < k ==> qs[s] < |ids| && ids[qs[s]].slot == s && SlotCount(ids[..qs[s]], s) == n
  {
    SlotRanks(ids);
    seq(k, s requires 0 <= s < k => SlotPositions(ids, s)[n])
  }

  /** The `n`-th position of slot `s` has exactly `n` positions of slot `s`
      before it. */
  lemma {:induction false} SlotRanks(ids: seq<Meta>)
    ensures forall s: nat, n: nat :: n < SlotCount(ids, s) ==> SlotCount(ids[..SlotPositions(ids, s)[n]], s) == n
    decreases |ids|
  {
    if ids != [] {
      var m := |ids| - 1;
      var front := ids[..m];
      SlotRanks(front);
      forall s: nat, n: nat | n < SlotCount(ids, s)
        ensures SlotCount(ids[..SlotPositions(ids, s)[n]], s) == n
      {
        var p := SlotPositions(ids, s)[n];
        if n < SlotCount(front, s) {
          assert p == SlotPositions(front, s)[n];
          assert ids[..p] == front[..p];
        } else {
          assert p == m;
          assert ids[..p] == front;
        }
      }
    }
  }

  /** Output `(i, j)` as written adds, slot by slot, the scaled rows at the
      `(i·t + j)`-th position of each slot in send order: the row-major
      index of the output plays the part of a rank in expert-major order. */
  lemma CombineAsWrittenAt<V, P>(ops: Ops<V, P>, returned: seq<V>, probs: seq<P>, ids: seq<Meta>,
                                 k: nat, b: nat, t: nat, i: nat, j: nat)
    requires |returned| == |probs| == |ids| == b * (t * k) && k >= 1 && EvenSlots(ids, k, b * t)
    requires i < b && j < t
    ensures i * t + j < b * t
    ensures var qs := Ranks(ids, k, i * t + j);
      CombineAsWritten(ops, returned, probs, ids, k, b, t)[i][j] ==
        Fold(ops, ScaleAll(ops, Gather(returned, qs), Gather(probs, qs)))
  {
    RowFits(i, b, t);
    var x := ScaleAll(ops, returned, probs);
    var n := i * t + j;
    var qs := Ranks(ids, k, n);
    var scaled := ScaleAll(ops, Gather(returned, qs), Gather(probs, qs));
    if k > 1 {
      var sum := SumSlots(ops, x, ids, k, b * t);
      ViewAt(sum, b, t, i, j);
      SumSlotsAt(ops, x, ids, k, b * t, n);
      assert seq(k, s requires 0 <= s < k => x[SlotPositions(ids, s)[n]]) == scaled;
    } else {
      ViewAt(x, b, t, i, j);
      OnlySlotZero(ids);
      assert qs[0] == n;
      assert scaled == [x[n]];
    }
  }

  // ---------------------------------------------------------------------
  // Combining by origin

  /** The first position holding `m`. */
  function IndexOf(ids: seq<Meta>, m: Meta): (q: nat)
    requires m in ids
    ensures q < |ids| && ids[q] == m
    ensures forall q' :: 0 <= q' < q ==> ids[q'] != m
  {
    if ids[0] == m then 0 else 1 + IndexOf(ids[1..], m)
  }

  lemma IndexOfUnique(ids: seq<Meta>, q: nat)
    requires NoDup(ids) && q < |ids|
    ensures IndexOf(ids, ids[q]) == q
  {
  }

  /** The intended combination: output `(i, j)` adds the scaled results of
      the coordinates `(offset + i, j, s)` for every slot `s`, found by
      their coordinates rather than by their rank in send order. */
  function CombineByOrigin<V, P>(ops: Ops<V, P>, scaled: seq<V>, ids: seq<Meta>,
                              offset: nat, b: nat, t: nat, k: nat): (out: seq<seq<V>>)
    requires |scaled| == |ids| && k >= 1 && AllSent(ids, offset, b, t, k)
    ensures |out| == b && forall i :: 0 <= i < b ==> |out[i]| == t
  {
    seq(b, i requires 0 <= i < b =>
      seq(t, j requires 0 <= j < t =>
        Fold(ops, seq(k, s requires 0 <= s < k => scaled[IndexOf(ids, Meta(offset + i, j, s))]))))
  }

  /** With no coordinate sent twice, output `(i, j)` adds exactly the scaled
      results sent from `(offset + i, j, 0)`, ..., `(offset + i, j, k - 1)`,
      in slot order. */
  lemma ByOriginAt<V, P>(ops: Ops<V, P>, scaled: seq<V>, ids: seq<Meta>,
                         offset: nat, b: nat, t: nat, k: nat, i: nat, j: nat, qs: seq<nat>)
    requires |scaled| == |ids| && k >= 1 && AllSent(ids, offset, b, t, k) && NoDup(ids)
    requires i < b && j < t && |qs| == k
    requires forall s :: 0 <= s < k ==> qs[s] < |ids| && ids[qs[s]] == Meta(offset + i, j, s)
    ensures CombineByOrigin(ops, scaled, ids, offset, b, t, k)[i][j] ==
      Fold(ops, seq(k, s requires 0 <= s < k => scaled[qs[s]]))
  {
    forall s | 0 <= s < k
      ensures IndexOf(ids, Meta(offset + i, j, s)) == qs[s]
    {
      IndexOfUnique(ids, qs[s]);
    }
    assert seq(k, s requires 0 <= s < k => scaled[IndexOf(ids, Meta(offset + i, j, s))]) ==
      seq(k, s requires 0 <= s < k => scaled[qs[s]]);
  }

  /** The combine by origin of scaled results: with the entries `qs[s]`
      carrying slot `s` of token `(i, j)` and the weights `ws[s]` at those
      entries, output `(i, j)` adds the results at `qs`, each scaled by its
      weight, over the slots. */
  lemma ByOriginScaled<V, P>(ops: Ops<V, P>, returned: seq<V>, probs: seq<P>, ids: seq<Meta>,
                             offset: nat, b: nat, t: nat, k: nat, i: nat, j: nat, qs: seq<nat>, ws: seq<P>)
    requires |returned| == |probs| == |ids| && k >= 1 && AllSent(ids, offset, b, t, k) && NoDup(ids)
    requires i < b && j < t && |qs| == |ws| == k
    requires forall s :: 0 <= s < k ==> qs[s] < |ids| && ids[qs[s]] == Meta(offset + i, j, s) && probs[qs[s]] == ws[s]
    ensures CombineByOrigin(ops, ScaleAll(ops, returned, probs), ids, offset, b, t, k)[i][j] ==
      Fold(ops, ScaleAll(ops, Gather(returned, qs), ws))
  {
    var scaled := ScaleAll(ops, returned, probs);
    ByOriginAt(ops, scaled, ids, offset, b, t, k, i, j, qs);
    assert seq(k, s requires 0 <= s < k => scaled[qs[s]]) == ScaleAll(ops, Gather(returned, qs), ws);
  }

  // ---------------------------------------------------------------------
  // The reshape at :115, on a concrete routing

  /** Integer features and weights, multiplied and added. */
  function IntOps(): Ops<int, int>
  {
    Ops((a: int, p: int) => a * p, (a: int, c: int) => a + c)
  }

  /** Worker 0's shard in a world of two workers, hence two experts: one
      sequence of two tokens, k = 1; token 0 chooses expert 1 with weight 3,
      token 1 chooses expert 0 with weight 5. */
  function CrossedPicks(): seq<seq<seq<Pick<int>>>>
  {
    [[[Pick(1, 3)], [Pick(0, 5)]]]
  }

  /** The send order is expert-major: token 1 (expert 0) leaves before
      token 0 (expert 1). */
  lemma CrossedSendOrder()
    ensures SendIds(CrossedPicks(), 2, 0) == [Meta(0, 1, 0), Meta(0, 0, 0)]
    ensures SendProbs(CrossedPicks(), 2) == [5, 3]
  {
    var c0 := Cell(Meta(0, 0, 0), Pick(1, 3));
    var c1 := Cell(Meta(0, 1, 0), Pick(0, 5));
    CrossedCells();
    assert [c0, c1][..1] == [c0];
    assert ForExpert([c0], 0) == [] by { assert [c0][..0] == []; }
    assert ForExpert([c0], 1) == [c0] by { assert [c0][..0] == []; }
    assert ForExpert([c0, c1], 0) == [c1];
    assert ForExpert([c0, c1], 1) == [c0];
    var bs := Buckets([c0, c1], 2);
    assert bs == [[c1], [c0]];
    assert bs[..1] == [[c1]];
    assert Concat(bs[..1]) == [c1] by { assert bs[..1][..0] == []; }
    assert Grouped([c0, c1], 2) == [c1, c0];
    assert Metas([c1, c0]) == [c1.meta, c0.meta];
    assert Weights([c1, c0]) == [5, 3];
  }

  /** The walk visits token 0's choice, then token 1's. */
  lemma CrossedCells()
    ensures Cells(CrossedPicks()) == [Cell(Meta(0, 0, 0), Pick(1, 3)), Cell(Meta(0, 1, 0), Pick(0, 5))]
  {
    var picks := CrossedPicks();
    var c0 := Cell(Meta(0, 0, 0), Pick(1, 3));
    var c1 := Cell(Meta(0, 1, 0), Pick(0, 5));
    assert SlotCells(0, 0, picks[0][0]) == [c0];
    assert SlotCells(0, 1, picks[0][1]) == [c1];
    assert picks[0][..1] == [picks[0][0]];
    assert RowCells(0, picks[0][..0]) == [];
    assert RowCells(0, picks[0][..1]) == [c0];
    assert RowCells(0, picks[0]) == [c0, c1];
    assert picks[..0] == [];
  }

  /** Lines :111-115 as written put, at output (0, 0), token 1's result
      scaled by token 1's weight (10 · 5), while token 0's own result,
      combined by origin, is 20 · 3. */
  lemma AsWrittenMisplaces()
    ensures var ids := SendIds(CrossedPicks(), 2, 0);
      var probs := SendProbs(CrossedPicks(), 2);
      |ids| == |probs| == 2 && EvenSlots(ids, 1, 2) && AllSent(ids, 0, 1, 2, 1) &&
      CombineAsWritten(IntOps(), [10, 20], probs, ids, 1, 1, 2)[0][0] == 50 &&
      CombineByOrigin(IntOps(), ScaleAll(IntOps(), [10, 20], probs), ids, 0, 1, 2, 1)[0][0] == 60
  {
    CrossedSendOrder();
    var ids := [Meta(0, 1, 0), Meta(0, 0, 0)];
    assert SlotCount(ids, 0) == 2 by {
      assert ids[..1] == [Meta(0, 1, 0)];
      assert ids[..1][..0] == [];
    }
    assert Meta(0, 0, 0) in ids && Meta(0, 1, 0) in ids;
    assert IndexOf(ids, Meta(0, 0, 0)) == 1 by { assert ids[1..] == [Meta(0, 0, 0)]; }
    var x := ScaleAll(IntOps(), [10, 20], [5, 3]);
    assert x == [50, 60];
    ViewAt(x, 1, 2, 0, 0);
  }
}
