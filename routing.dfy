/** One worker's side of the permutation step: the router's top-k choices
    are enumerated in row-major order (`nonzero()`), grouped by destination
    expert (`ids_per_expert`, `probs_per_expert`), counted (`send_count`),
    concatenated into send buffers and their row ids made global. */
module Routing {
  import opened Seqs

  /** One row of `(topk_experts == e).nonzero()`: batch row, position in the
      sequence and top-k slot. */
  datatype Meta = Meta(row: nat, pos: nat, slot: nat)

  /** One top-k choice of the router: the expert and its probability. */
  datatype Pick<P> = Pick(expert: nat, weight: P)

  /** A top-k choice together with its coordinates in the B×T×k tensor. */
  datatype Cell<P> = Cell(meta: Meta, pick: Pick<P>)

  /** The router's top-k output `picks[b][t][s]`, shape B×T×k, with expert
      ids below the number of experts `w`. */
  predicate Shaped<P>(picks: seq<seq<seq<Pick<P>>>>, t: nat, k: nat, w: nat)
  {
    forall b :: 0 <= b < |picks| ==>
      |picks[b]| == t &&
      forall p :: 0 <= p < t ==>
        |picks[b][p]| == k && forall s :: 0 <= s < k ==> picks[b][p][s].expert < w
  }

  /** Row-major (lexicographic) order of coordinates. */
  predicate Before(a: Meta, b: Meta)
  {
    a.row < b.row || (a.row == b.row && (a.pos < b.pos || (a.pos == b.pos && a.slot < b.slot)))
  }

  predicate RowMajor<P>(cs: seq<Cell<P>>)
  {
    forall p, q :: 0 <= p < q < |cs| ==> Before(cs[p].meta, cs[q].meta)
  }

  /** The cell holds the choice found at its coordinates. */
  ghost predicate Located<P>(picks: seq<seq<seq<Pick<P>>>>, c: Cell<P>)
  {
    c.meta.row < |picks| && c.meta.pos < |picks[c.meta.row]| &&
    c.meta.slot < |picks[c.meta.row][c.meta.pos]| &&
    c.pick == picks[c.meta.row][c.meta.pos][c.meta.slot]
  }

  function SlotCells<P>(b: nat, t: nat, ps: seq<Pick<P>>): seq<Cell<P>>
  {
    seq(|ps|, s requires 0 <= s < |ps| => Cell(Meta(b, t, s), ps[s]))
  }

  function RowCells<P>(b: nat, row: seq<seq<Pick<P>>>): seq<Cell<P>>
  {
    if row == [] then []
    else RowCells(b, row[..|row| - 1]) + SlotCells(b, |row| - 1, row[|row| - 1])
  }

  /** Every coordinate of the top-k tensor with its choice, in row-major
      order: what `nonzero()` walks. */
  function Cells<P>(picks: seq<seq<seq<Pick<P>>>>): seq<Cell<P>>
  {
    if picks == [] then []
    else Cells(picks[..|picks| - 1]) + RowCells(|picks| - 1, picks[|picks| - 1])
  }

  lemma RowMajorAppend<P>(a: seq<Cell<P>>, b: seq<Cell<P>>)
    requires RowMajor(a) && RowMajor(b)
    requires forall p, q :: 0 <= p < |a| && 0 <= q < |b| ==> Before(a[p].meta, b[q].meta)
    ensures RowMajor(a + b)
  {
  }

  /** The choices of one position, slot by slot. */
  lemma SlotCellsFacts<P>(b: nat, t: nat, ps: seq<Pick<P>>)
    ensures RowMajor(SlotCells(b, t, ps))
    ensures forall c :: c in SlotCells(b, t, ps) ==>
      c.meta.row == b && c.meta.pos == t && c.meta.slot < |ps| && c.pick == ps[c.meta.slot]
  {
    var cs := SlotCells(b, t, ps);
    forall c | c in cs
      ensures c.meta.row == b && c.meta.pos == t && c.meta.slot < |ps| && c.pick == ps[c.meta.slot]
    {
      var s :| 0 <= s < |cs| && cs[s] == c;
    }
  }

  /** The choices of one row, position by position. */
  lemma {:induction false} RowCellsFacts<P>(b: nat, row: seq<seq<Pick<P>>>)
    ensures RowMajor(RowCells(b, row))
    ensures forall c :: c in RowCells(b, row) ==>
      c.meta.row == b && c.meta.pos < |row| && c.meta.slot < |row[c.meta.pos]| &&
      c.pick == row[c.meta.pos][c.meta.slot]
    ensures forall t, s :: 0 <= t < |row| && 0 <= s < |row[t]| ==>
      Cell(Meta(b, t, s), row[t][s]) in RowCells(b, row)
    decreases |row|
  {
    if row != [] {
      var n := |row| - 1;
      var front := RowCells(b, row[..n]);
      var last := SlotCells(b, n, row[n]);
      assert RowCells(b, row) == front + last;
      RowCellsFacts(b, row[..n]);
      SlotCellsFacts(b, n, row[n]);
      forall p, q | 0 <= p < |front| && 0 <= q < |last|
        ensures Before(front[p].meta, last[q].meta)
      {
        assert front[p] in front;
        assert last[q] in last;
      }
      RowMajorAppend(front, last);
      forall c | c in RowCells(b, row)
        ensures c.meta.row == b && c.meta.pos < |row| && c.meta.slot < |row[c.meta.pos]| &&
          c.pick == row[c.meta.pos][c.meta.slot]
      {
        if c in front {
          assert row[..n][c.meta.pos] == row[c.meta.pos];
        } else {
          assert c in last;
        }
      }
      forall t, s | 0 <= t < |row| && 0 <= s < |row[t]|
        ensures Cell(Meta(b, t, s), row[t][s]) in RowCells(b, row)
      {
        if t < n {
          assert row[..n][t] == row[t];
          assert Cell(Meta(b, t, s), row[t][s]) in front;
        } else {
          assert last[s] == Cell(Meta(b, t, s), row[t][s]);
        }
      }
    }
  }

  /** `nonzero()` on the top-k tensor lists every coordinate exactly once,
      in row-major order, each with the choice stored there. */
  lemma {:induction false} CellsAreRowMajor<P>(picks: seq<seq<seq<Pick<P>>>>)
    ensures RowMajor(Cells(picks))
    ensures forall c :: c in Cells(picks) ==> Located(picks, c)
    ensures forall b, t, s :: 0 <= b < |picks| && 0 <= t < |picks[b]| && 0 <= s < |picks[b][t]| ==>
      Cell(Meta(b, t, s), picks[b][t][s]) in Cells(picks)
    decreases |picks|
  {
    if picks != [] {
      var n := |picks| - 1;
      var front := Cells(picks[..n]);
      var last := RowCells(n, picks[n]);
      assert Cells(picks) == front + last;
      CellsAreRowMajor(picks[..n]);
      RowCellsFacts(n, picks[n]);
      forall p, q | 0 <= p < |front| && 0 <= q < |last|
        ensures Before(front[p].meta, last[q].meta)
      {
        assert front[p] in front;
        assert last[q] in last;
      }
      RowMajorAppend(front, last);
      forall c | c in Cells(picks)
        ensures Located(picks, c)
      {
        if c in front {
          assert Located(picks[..n], c);
          assert picks[..n][c.meta.row] == picks[c.meta.row];
        }
      }
      forall b, t, s | 0 <= b < |picks| && 0 <= t < |picks[b]| && 0 <= s < |picks[b][t]|
        ensures Cell(Meta(b, t, s), picks[b][t][s]) in Cells(picks)
      {
        if b < n {
          assert picks[..n][b] == picks[b];
          assert Cell(Meta(b, t, s), picks[b][t][s]) in front;
        }
      }
    }
  }

  lemma {:induction false} RowCellsCount<P>(b: nat, row: seq<seq<Pick<P>>>, k: nat)
    requires forall t :: 0 <= t < |row| ==> |row[t]| == k
    ensures |RowCells(b, row)| == |row| * k
    decreases |row|
  {
    if row != [] {
      var n := |row| - 1;
      assert forall t :: 0 <= t < n ==> row[..n][t] == row[t];
      RowCellsCount(b, row[..n], k);
      assert |RowCells(b, row)| == n * k + k;
    }
  }

  lemma MulStep(n: nat, m: nat)
    ensures (n + 1) * m == n * m + m
  {
  }

  lemma ShapedPrefix<P>(picks: seq<seq<seq<Pick<P>>>>, t: nat, k: nat, w: nat, n: nat)
    requires Shaped(picks, t, k, w) && n <= |picks|
    ensures Shaped(picks[..n], t, k, w)
  {
    forall b | 0 <= b < n
      ensures picks[..n][b] == picks[b]
    {
    }
  }

  /** There are B·T·k choices in all. */
  lemma {:induction false} CellsCount<P>(picks: seq<seq<seq<Pick<P>>>>, t: nat, k: nat, w: nat)
    requires Shaped(picks, t, k, w)
    ensures |Cells(picks)| == |picks| * (t * k)
    decreases |picks|
  {
    if picks != [] {
      var n := |picks| - 1;
      ShapedPrefix(picks, t, k, w, n);
      CellsCount(picks[..n], t, k, w);
      RowCellsCount(n, picks[n], k);
      assert |Cells(picks)| == n * (t * k) + t * k;
      MulStep(n, t * k);
    }
  }

  // ---------------------------------------------------------------------
  // Grouping by destination expert

  /** The choices that name expert `e`, in the order they come:
      `(topk_experts == e).nonzero()` together with `topk_probs[topk_experts == e]`. */
  function ForExpert<P>(cs: seq<Cell<P>>, e: nat): (r: seq<Cell<P>>)
    ensures |r| <= |cs|
  {
    if cs == [] then []
    else ForExpert(cs[..|cs| - 1], e) + (if cs[|cs| - 1].pick.expert == e then [cs[|cs| - 1]] else [])
  }

  /** `ForExpert` keeps exactly the choices of expert `e`, in their order. */
  lemma {:induction false} ForExpertFacts<P>(cs: seq<Cell<P>>, e: nat)
    ensures forall c :: c in ForExpert(cs, e) ==> c in cs && c.pick.expert == e
    ensures forall c :: c in cs && c.pick.expert == e ==> c in ForExpert(cs, e)
    ensures RowMajor(cs) ==> RowMajor(ForExpert(cs, e))
    decreases |cs|
  {
    if cs != [] {
      var n := |cs| - 1;
      ForExpertFacts(cs[..n], e);
      assert cs == cs[..n] + [cs[n]];
      if RowMajor(cs) {
        var front := ForExpert(cs[..n], e);
        var last := if cs[n].pick.expert == e then [cs[n]] else [];
        assert RowMajor(cs[..n]);
        forall p, q | 0 <= p < |front| && 0 <= q < |last|
          ensures Before(front[p].meta, last[q].meta)
        {
          assert front[p] in front;
          assert front[p] in cs[..n];
          var i :| 0 <= i < n && cs[..n][i] == front[p];
          assert cs[i] == front[p];
        }
        RowMajorAppend(front, last);
      }
    }
  }

  /** `ids_per_expert` as cells: one list per expert, in expert order. */
  function Buckets<P>(cs: seq<Cell<P>>, w: nat): (bs: seq<seq<Cell<P>>>)
    ensures |bs| == w
  {
    seq(w, e requires 0 <= e < w => ForExpert(cs, e))
  }

  /** All choices in send order: expert-major, then row-major (`torch.cat(ids_per_expert)`). */
  function Grouped<P>(cs: seq<Cell<P>>, w: nat): seq<Cell<P>>
  {
    Concat(Buckets(cs, w))
  }

  /** The choices naming an expert below `n`. */
  function Below<P>(cs: seq<Cell<P>>, n: nat): seq<Cell<P>>
  {
    if cs == [] then []
    else Below(cs[..|cs| - 1], n) + (if cs[|cs| - 1].pick.expert < n then [cs[|cs| - 1]] else [])
  }

  lemma {:induction false} BelowSplit<P>(cs: seq<Cell<P>>, n: nat)
    ensures multiset(Below(cs, n + 1)) == multiset(Below(cs, n)) + multiset(ForExpert(cs, n))
    decreases |cs|
  {
    if cs != [] {
      BelowSplit(cs[..|cs| - 1], n);
    }
  }

  lemma {:induction false} BelowAll<P>(cs: seq<Cell<P>>, w: nat)
    requires forall c :: c in cs ==> c.pick.expert < w
    ensures Below(cs, w) == cs
    decreases |cs|
  {
    if cs != [] {
      var n := |cs| - 1;
      assert cs == cs[..n] + [cs[n]];
      BelowAll(cs[..n], w);
    }
  }

  lemma {:induction false} GroupedBelow<P>(cs: seq<Cell<P>>, n: nat)
    ensures multiset(Grouped(cs, n)) == multiset(Below(cs, n))
    decreases n
  {
    if n == 0 {
      assert Below(cs, 0) == [] by { BelowNone(cs); }
    } else {
      assert Buckets(cs, n)[..n - 1] == Buckets(cs, n - 1);
      GroupedBelow(cs, n - 1);
      BelowSplit(cs, n - 1);
    }
  }

  lemma {:induction false} BelowNone<P>(cs: seq<Cell<P>>)
    ensures Below(cs, 0) == []
    decreases |cs|
  {
    if cs != [] {
      BelowNone(cs[..|cs| - 1]);
    }
  }

  /** Each choice names exactly one expert, so the send order is a
      rearrangement of all the choices: nothing is lost or duplicated. */
  lemma GroupedPermutes<P>(cs: seq<Cell<P>>, w: nat)
    requires forall c :: c in cs ==> c.pick.expert < w
    ensures multiset(Grouped(cs, w)) == multiset(cs)
    ensures |Grouped(cs, w)| == |cs|
  {
    GroupedBelow(cs, w);
    BelowAll(cs, w);
    assert |multiset(Grouped(cs, w))| == |multiset(cs)|;
  }

  /** Position `q` of the send order is a choice of the expert whose send
      block holds `q`. */
  lemma GroupedAt<P>(cs: seq<Cell<P>>, w: nat, q: nat)
    requires q < |Grouped(cs, w)|
    ensures q < Sum(Lens(Buckets(cs, w)))
    ensures Grouped(cs, w)[q] in cs
    ensures Grouped(cs, w)[q].pick.expert == Locate(Lens(Buckets(cs, w)), q)
  {
    var bs := Buckets(cs, w);
    ConcatLocate(bs, q);
    var e := Locate(Lens(bs), q);
    ForExpertFacts(cs, e);
    assert Grouped(cs, w)[q] in bs[e];
  }

  // ---------------------------------------------------------------------
  // One worker's send buffers

  /** `ids_per_expert`: the coordinates routed to each expert. */
  function IdsPerExpert<P>(picks: seq<seq<seq<Pick<P>>>>, w: nat): seq<seq<Meta>>
  {
    seq(w, e requires 0 <= e < w => Metas(ForExpert(Cells(picks), e)))
  }

  /** `send_count`: how many choices go to each expert. */
  function SendCounts<P>(picks: seq<seq<seq<Pick<P>>>>, w: nat): (counts: seq<nat>)
    ensures |counts| == w
  {
    Lens(Buckets(Cells(picks), w))
  }

  function Metas<P>(cs: seq<Cell<P>>): (ms: seq<Meta>)
    ensures |ms| == |cs|
  {
    seq(|cs|, q requires 0 <= q < |cs| => cs[q].meta)
  }

  function Weights<P>(cs: seq<Cell<P>>): (ws: seq<P>)
    ensures |ws| == |cs|
  {
    seq(|cs|, q requires 0 <= q < |cs| => cs[q].pick.weight)
  }

  /** `send_ids[:,0] += offset`. */
  function ShiftRows(ms: seq<Meta>, offset: nat): (r: seq<Meta>)
    ensures |r| == |ms|
  {
    seq(|ms|, q requires 0 <= q < |ms| => ms[q].(row := ms[q].row + offset))
  }

  /** `send_ids`: the coordinates in send order, rows made global by the
      worker's batch offset. */
  function SendIds<P>(picks: seq<seq<seq<Pick<P>>>>, w: nat, offset: nat): (ids: seq<Meta>)
    ensures |ids| == Sum(SendCounts(picks, w))
  {
    ConcatLen(Buckets(Cells(picks), w));
    ShiftRows(Metas(Grouped(Cells(picks), w)), offset)
  }

  /** The probability of every sent choice (`torch.concatenate(probs_per_expert)`). */
  function SendProbs<P>(picks: seq<seq<seq<Pick<P>>>>, w: nat): (probs: seq<P>)
    ensures |probs| == Sum(SendCounts(picks, w))
  {
    ConcatLen(Buckets(Cells(picks), w));
    Weights(Grouped(Cells(picks), w))
  }

  /** The input tensor `x` has one token per coordinate of the top-k tensor's
      first two dimensions. */
  predicate Covers<V, P>(x: seq<seq<V>>, picks: seq<seq<seq<Pick<P>>>>)
  {
    |x| == |picks| && forall b :: 0 <= b < |x| ==> |x[b]| == |picks[b]|
  }

  /** `send_toks`: the token of every sent choice, in send order. */
  function SendToks<V, P>(x: seq<seq<V>>, picks: seq<seq<seq<Pick<P>>>>, w: nat): (toks: seq<V>)
    requires Covers(x, picks)
    ensures |toks| == |Grouped(Cells(picks), w)|
  {
    var g := Grouped(Cells(picks), w);
    CellsAreRowMajor(picks);
    forall q | 0 <= q < |g| ensures Located(picks, g[q]) {
      GroupedAt(Cells(picks), w, q);
    }
    seq(|g|, q requires 0 <= q < |g| => x[g[q].meta.row][g[q].meta.pos])
  }

  /** `send_count` conserves the choices: it sums to B·T·k, and the send
      buffers hold exactly that many entries. */
  lemma CountConservation<P>(picks: seq<seq<seq<Pick<P>>>>, t: nat, k: nat, w: nat)
    requires Shaped(picks, t, k, w)
    ensures Sum(SendCounts(picks, w)) == |picks| * (t * k)
    ensures |SendIds(picks, w, 0)| == |SendProbs(picks, w)| == |picks| * (t * k)
  {
    var cs := Cells(picks);
    CellsAreRowMajor(picks);
    CellsCount(picks, t, k, w);
    GroupedPermutes(cs, w);
    ConcatLen(Buckets(cs, w));
  }

  /** `send_count[e]` is the length of `ids_per_expert[e]`, and block `e` of
      `send_ids` is `ids_per_expert[e]` with global rows. */
  lemma SendBlocks<P>(picks: seq<seq<seq<Pick<P>>>>, w: nat, offset: nat, e: nat)
    requires e < w
    ensures |Grouped(Cells(picks), w)| == Sum(SendCounts(picks, w))
    ensures SendCounts(picks, w)[e] == |IdsPerExpert(picks, w)[e]|
    ensures Segment(SendIds(picks, w, offset), SendCounts(picks, w), e) == ShiftRows(IdsPerExpert(picks, w)[e], offset)
  {
    var bs := Buckets(Cells(picks), w);
    SegmentOfConcat(bs, e);
    var seg := Segment(SendIds(picks, w, offset), SendCounts(picks, w), e);
    var blk := Segment(Grouped(Cells(picks), w), SendCounts(picks, w), e);
    forall d | 0 <= d < |seg|
      ensures seg[d] == ShiftRows(IdsPerExpert(picks, w)[e], offset)[d]
    {
      assert blk[d] == bs[e][d];
    }
  }

  /** `send_ids`, `send_toks` and the concatenated probabilities share one
      order: entry `q` of each belongs to the same (row, position, slot),
      whose choice named the expert of the block that holds `q`. */
  lemma SendAligned<V, P>(x: seq<seq<V>>, picks: seq<seq<seq<Pick<P>>>>, w: nat, offset: nat, q: nat)
    requires Covers(x, picks) && q < |SendIds(picks, w, offset)|
    ensures q < Sum(SendCounts(picks, w))
    ensures var m := SendIds(picks, w, offset)[q];
      offset <= m.row && m.row - offset < |picks| && m.pos < |picks[m.row - offset]| &&
      m.slot < |picks[m.row - offset][m.pos]| &&
      SendToks(x, picks, w)[q] == x[m.row - offset][m.pos] &&
      SendProbs(picks, w)[q] == picks[m.row - offset][m.pos][m.slot].weight &&
      picks[m.row - offset][m.pos][m.slot].expert == Locate(SendCounts(picks, w), q)
  {
    CellsAreRowMajor(picks);
    GroupedAt(Cells(picks), w, q);
  }

  /** Within the block sent to any one expert, global row ids lie in
      `[offset, offset + B)` and never decrease, because `nonzero()` is
      row-major. */
  lemma SendBlockRows<P>(picks: seq<seq<seq<Pick<P>>>>, w: nat, offset: nat, e: nat)
    requires e < w
    ensures |Grouped(Cells(picks), w)| == Sum(SendCounts(picks, w))
    ensures var blk := Segment(SendIds(picks, w, offset), SendCounts(picks, w), e);
      (forall d :: 0 <= d < |blk| ==> offset <= blk[d].row < offset + |picks|) &&
      (forall d, d' :: 0 <= d <= d' < |blk| ==> blk[d].row <= blk[d'].row)
  {
    SendBlocks(picks, w, offset, e);
    var cs := Cells(picks);
    CellsAreRowMajor(picks);
    ForExpertFacts(cs, e);
    var f := ForExpert(cs, e);
    forall d | 0 <= d < |f| ensures f[d].meta.row < |picks| {
      assert f[d] in f;
      assert f[d] in cs;
      assert Located(picks, f[d]);
    }
  }

  /** `send_ids[:,0] += offset`, in place. */
  method ShiftRowIds(ids: array<Meta>, offset: nat)
    modifies ids
    ensures ids[..] == ShiftRows(old(ids[..]), offset)
  {
    var q := 0;
    while q < ids.Length
      invariant 0 <= q <= ids.Length
      invariant forall p :: 0 <= p < q ==> ids[p] == old(ids[p]).(row := old(ids[p]).row + offset)
      invariant forall p :: q <= p < ids.Length ==> ids[p] == old(ids[p])
    {
      ids[q] := ids[q].(row := ids[q].row + offset);
      q := q + 1;
    }
  }

  // ---------------------------------------------------------------------
  // Slots, for the sum over k

  /** How many coordinates have top-k slot `s`. */
  function SlotCount(ms: seq<Meta>, s: nat): nat
  {
    if ms == [] then 0
    else SlotCount(ms[..|ms| - 1], s) + (if ms[|ms| - 1].slot == s then 1 else 0)
  }

  lemma {:induction false} SlotCountAppend(a: seq<Meta>, b: seq<Meta>, s: nat)
    ensures SlotCount(a + b, s) == SlotCount(a, s) + SlotCount(b, s)
    decreases |b|
  {
    if b == [] {
      assert a + b == a;
    } else {
      var n := |b| - 1;
      assert (a + b)[..|a + b| - 1] == a + b[..n];
      SlotCountAppend(a, b[..n], s);
    }
  }

  lemma {:induction false} SlotCountPerm(a: seq<Meta>, b: seq<Meta>, s: nat)
    requires multiset(a) == multiset(b)
    ensures SlotCount(a, s) == SlotCount(b, s)
    decreases |a|
  {
    if a == [] {
      assert |multiset(b)| == 0;
    } else {
      var n := |a| - 1;
      var x := a[n];
      assert a == a[..n] + [x];
      assert x in multiset(b);
      var i :| 0 <= i < |b| && b[i] == x;
      var rest := b[..i] + b[i + 1..];
      assert b == b[..i] + [x] + b[i + 1..];
      assert multiset(b) == multiset(b[..i]) + multiset{x} + multiset(b[i + 1..]);
      assert multiset(a) == multiset(a[..n]) + multiset{x};
      assert multiset(rest) == multiset(b[..i]) + multiset(b[i + 1..]);
      forall o
        ensures multiset(rest)[o] == multiset(a[..n])[o]
      {
        assert multiset(a)[o] == multiset(b)[o];
      }
      assert multiset(rest) == multiset(a[..n]);
      SlotCountPerm(a[..n], rest, s);
      SlotCountAppend(a[..n], [x], s);
      SlotCountAppend(b[..i], [x], s);
      SlotCountAppend(b[..i] + [x], b[i + 1..], s);
      SlotCountAppend(b[..i], b[i + 1..], s);
    }
  }

  lemma {:induction false} SlotCellsCount<P>(b: nat, t: nat, ps: seq<Pick<P>>, s: nat)
    ensures SlotCount(Metas(SlotCells(b, t, ps)), s) == if s < |ps| then 1 else 0
    decreases |ps|
  {
    if ps != [] {
      var n := |ps| - 1;
      assert Metas(SlotCells(b, t, ps))[..n] == Metas(SlotCells(b, t, ps[..n]));
      SlotCellsCount(b, t, ps[..n], s);
    }
  }

  lemma MetasAppend<P>(a: seq<Cell<P>>, b: seq<Cell<P>>)
    ensures Metas(a + b) == Metas(a) + Metas(b)
  {
  }

  lemma {:induction false} RowSlotCount<P>(b: nat, row: seq<seq<Pick<P>>>, k: nat, s: nat)
    requires s < k && forall t :: 0 <= t < |row| ==> |row[t]| == k
    ensures SlotCount(Metas(RowCells(b, row)), s) == |row|
    decreases |row|
  {
    if row != [] {
      var n := |row| - 1;
      RowSlotCount(b, row[..n], k, s);
      MetasAppend(RowCells(b, row[..n]), SlotCells(b, n, row[n]));
      SlotCountAppend(Metas(RowCells(b, row[..n])), Metas(SlotCells(b, n, row[n])), s);
      SlotCellsCount(b, n, row[n], s);
    }
  }

  lemma {:induction false} CellsSlotCount<P>(picks: seq<seq<seq<Pick<P>>>>, t: nat, k: nat, w: nat, s: nat)
    requires Shaped(picks, t, k, w) && s < k
    ensures SlotCount(Metas(Cells(picks)), s) == |picks| * t
    decreases |picks|
  {
    if picks != [] {
      var n := |picks| - 1;
      ShapedPrefix(picks, t, k, w, n);
      CellsSlotCount(picks[..n], t, k, w, s);
      MetasAppend(Cells(picks[..n]), RowCells(n, picks[n]));
      SlotCountAppend(Metas(Cells(picks[..n])), Metas(RowCells(n, picks[n])), s);
      RowSlotCount(n, picks[n], k, s);
      assert SlotCount(Metas(Cells(picks)), s) == n * t + t;
      MulStep(n, t);
    }
  }

  lemma {:induction false} ShiftKeepsSlots(ms: seq<Meta>, offset: nat, s: nat)
    ensures SlotCount(ShiftRows(ms, offset), s) == SlotCount(ms, s)
    decreases |ms|
  {
    if ms != [] {
      var n := |ms| - 1;
      assert ShiftRows(ms, offset)[..n] == ShiftRows(ms[..n], offset);
      ShiftKeepsSlots(ms[..n], offset, s);
    }
  }

  lemma MetasMultiset<P>(a: seq<Cell<P>>, b: seq<Cell<P>>)
    requires multiset(a) == multiset(b)
    ensures multiset(Metas(a)) == multiset(Metas(b))
    decreases |a|
  {
    if a == [] {
      assert |multiset(b)| == 0;
    } else {
      var n := |a| - 1;
      var x := a[n];
      assert a == a[..n] + [x];
      assert x in multiset(b);
      var i :| 0 <= i < |b| && b[i] == x;
      var rest := b[..i] + b[i + 1..];
      assert b == b[..i] + [x] + b[i + 1..];
      assert multiset(b) == multiset(b[..i]) + multiset{x} + multiset(b[i + 1..]);
      assert multiset(a) == multiset(a[..n]) + multiset{x};
      assert multiset(rest) == multiset(b[..i]) + multiset(b[i + 1..]);
      forall o
        ensures multiset(rest)[o] == multiset(a[..n])[o]
      {
        assert multiset(a)[o] == multiset(b)[o];
      }
      assert multiset(rest) == multiset(a[..n]);
      MetasMultiset(a[..n], rest);
      MetasAppend(a[..n], [x]);
      MetasAppend(b[..i], [x]);
      MetasAppend(b[..i] + [x], b[i + 1..]);
      MetasAppend(b[..i], b[i + 1..]);
    }
  }

  /** Every top-k slot occurs B·T times among the sent ids, so the slices
      `x[send_ids[:,-1] == s]` have equal length and can be stacked. */
  lemma SendSlotCount<P>(picks: seq<seq<seq<Pick<P>>>>, t: nat, k: nat, w: nat, offset: nat, s: nat)
    requires Shaped(picks, t, k, w) && s < k
    ensures SlotCount(SendIds(picks, w, offset), s) == |picks| * t
  {
    var cs := Cells(picks);
    CellsAreRowMajor(picks);
    GroupedPermutes(cs, w);
    MetasMultiset(Grouped(cs, w), cs);
    SlotCountPerm(Metas(Grouped(cs, w)), Metas(cs), s);
    ShiftKeepsSlots(Metas(Grouped(cs, w)), offset, s);
    CellsSlotCount(picks, t, k, w, s);
  }

  // ---------------------------------------------------------------------
  // The send buffers hold every coordinate once

  /** `send_ids` and the concatenated probabilities have one entry per unit
      of `send_count`. */
  lemma SendLengths<P>(picks: seq<seq<seq<Pick<P>>>>, w: nat, offset: nat)
    ensures |SendIds(picks, w, offset)| == |SendProbs(picks, w)| == |Grouped(Cells(picks), w)| == Sum(SendCounts(picks, w))
  {
    ConcatLen(Buckets(Cells(picks), w));
  }

  /** No coordinate is sent twice. */
  predicate NoDup(ids: seq<Meta>)
  {
    forall q, q' :: 0 <= q < q' < |ids| ==> ids[q] != ids[q']
  }

  /** Every (row, position, slot) of the worker's `b × t × k` choices is
      among the sent coordinates, rows counted from `offset`. */
  predicate AllSent(ids: seq<Meta>, offset: nat, b: nat, t: nat, k: nat)
  {
    forall g, j, s :: offset <= g < offset + b && 0 <= j < t && 0 <= s < k ==> Meta(g, j, s) in ids
  }

  /** Every coordinate of the worker's top-k tensor is sent, with its row
      made global. */
  lemma SendIdsComplete<P>(picks: seq<seq<seq<Pick<P>>>>, t: nat, k: nat, w: nat, offset: nat)
    requires Shaped(picks, t, k, w)
    ensures AllSent(SendIds(picks, w, offset), offset, |picks|, t, k)
  {
    var cs := Cells(picks);
    var g := Grouped(cs, w);
    CellsAreRowMajor(picks);
    forall c | c in cs ensures c.pick.expert < w {
      assert Located(picks, c);
    }
    GroupedPermutes(cs, w);
    forall r, j, s | offset <= r < offset + |picks| && 0 <= j < t && 0 <= s < k
      ensures Meta(r, j, s) in SendIds(picks, w, offset)
    {
      var b := r - offset;
      var c := Cell(Meta(b, j, s), picks[b][j][s]);
      assert c in cs;
      assert multiset(g)[c] == multiset(cs)[c];
      assert c in g;
      var q :| 0 <= q < |g| && g[q] == c;
      assert Metas(g)[q] == c.meta;
      assert SendIds(picks, w, offset)[q] == Meta(r, j, s);
    }
  }

  /** A sequence without duplicates holds every value at most once. */
  lemma {:induction false} NoDupCount(a: seq<Meta>, m: Meta)
    requires NoDup(a)
    ensures multiset(a)[m] <= 1
    decreases |a|
  {
    if a != [] {
      var n := |a| - 1;
      assert a == a[..n] + [a[n]];
      assert NoDup(a[..n]);
      NoDupCount(a[..n], m);
      if a[n] == m {
        assert m !in a[..n];
      }
    }
  }

  /** A permutation of a sequence without duplicates has none either. */
  lemma NoDupPerm(a: seq<Meta>, b: seq<Meta>)
    requires NoDup(a) && multiset(a) == multiset(b)
    ensures NoDup(b)
  {
    forall q, q' | 0 <= q < q' < |b|
      ensures b[q] != b[q']
    {
      if b[q] == b[q'] {
        var m := b[q];
        assert b == b[..q'] + [b[q']] + b[q' + 1..];
        assert m in b[..q'];
        assert multiset(b)[m] >= 2;
        NoDupCount(a, m);
      }
    }
  }

  /** No coordinate is sent twice. */
  lemma SendIdsNoDup<P>(picks: seq<seq<seq<Pick<P>>>>, t: nat, k: nat, w: nat, offset: nat)
    requires Shaped(picks, t, k, w)
    ensures NoDup(SendIds(picks, w, offset))
  {
    var cs := Cells(picks);
    CellsAreRowMajor(picks);
    forall c | c in cs ensures c.pick.expert < w {
      assert Located(picks, c);
    }
    GroupedPermutes(cs, w);
    MetasMultiset(Grouped(cs, w), cs);
    assert NoDup(Metas(cs));
    NoDupPerm(Metas(cs), Metas(Grouped(cs, w)));
  }
}
