/** `MoE.forward` on all workers at once. Worker `j` holds `x` (B_j × T
    tokens) and the router's top-k choices for it. The collectives are the
    pure exchanges of module Exchange, so one function computes the outputs
    of every worker from the inputs of every worker. Worker `i` also hosts
    expert `i`, an opaque function on its padded batch. */
module MoE {
  import opened Seqs
  import opened Exchange
  import opened Routing
  import opened Grouping
  import opened Combine

  datatype Option<T> = None | Some(value: T)

  /** `MoE.__init__`'s settings: `k`, the capacity per row the float
      formula yields, `padding_val`, `drop_last`, and the sequence length T
      every worker's batch has. */
  datatype Config<V> = Config(k: nat, capacity: nat, pad: V, dropLast: bool, seqLen: nat)

  /** One data-loader worker's input `x` and the router's `topk` output for it. */
  datatype Shard<V, P> = Shard(x: seq<seq<V>>, picks: seq<seq<seq<Pick<P>>>>)

  /** The expert module on one worker, applied to its Rows × Capacity batch. */
  type Expert<!V> = seq<seq<V>> -> seq<seq<V>>

  datatype Outcome<V> = Done(out: seq<seq<seq<V>>>) | Failed

  /** Every worker's input is B_j × T, and its choices are B_j × T × k
      experts below the world size. */
  predicate ValidShards<V, P>(cfg: Config<V>, shards: seq<Shard<V, P>>)
  {
    forall j :: 0 <= j < |shards| ==>
      Covers(shards[j].x, shards[j].picks) && Shaped(shards[j].picks, cfg.seqLen, cfg.k, |shards|)
  }

  /** The expert maps a Rows × Capacity batch to a Rows × Capacity batch. */
  ghost predicate PreservesShape<V(!new)>(expert: Expert<V>, capacity: nat)
  {
    forall batch: seq<seq<V>> :: Rect(batch, |batch|, capacity) ==> Rect(expert(batch), |batch|, capacity)
  }

  ghost predicate ValidExperts<V(!new)>(cfg: Config<V>, experts: seq<Expert<V>>, w: nat)
  {
    |experts| == w && forall i :: 0 <= i < w ==> PreservesShape(experts[i], cfg.capacity)
  }

  /** `drop_last` promises one batch size on every worker. */
  predicate Consistent<V, P>(cfg: Config<V>, shards: seq<Shard<V, P>>)
  {
    cfg.dropLast ==> forall j, j' :: 0 <= j < |shards| && 0 <= j' < |shards| ==> |shards[j].x| == |shards[j'].x|
  }

  // ---------------------------------------------------------------------
  // 0. Setup

  function BatchSizes<V, P>(shards: seq<Shard<V, P>>): (sizes: seq<nat>)
    ensures |sizes| == |shards|
  {
    seq(|shards|, j requires 0 <= j < |shards| => |shards[j].x|)
  }

  /** `batch_inits[global_rank]` on worker `j`: `j * B` under `drop_last`,
      and the all-gathered prefix sum otherwise. */
  function BatchOffset<V, P>(cfg: Config<V>, shards: seq<Shard<V, P>>, j: nat): (r: nat)
    requires j < |shards|
  {
    if cfg.dropLast then UniformInits(|shards|, |shards[j].x|)[j]
    else BatchInits(BatchSizes(shards))[j]
  }

  /** Under either branch, worker `j`'s first global row is the total batch
      of the workers before it, so consecutive workers own adjacent,
      disjoint row ranges. */
  lemma OffsetsArePrefixSums<V, P>(cfg: Config<V>, shards: seq<Shard<V, P>>)
    requires Consistent(cfg, shards)
    ensures forall j :: 0 <= j < |shards| ==> BatchOffset(cfg, shards, j) == Prefix(BatchSizes(shards), j)
  {
    var sizes := BatchSizes(shards);
    BatchInitsArePrefixSums(sizes);
    if cfg.dropLast && |shards| > 0 {
      forall j | 0 <= j < |shards|
        ensures BatchOffset(cfg, shards, j) == Prefix(sizes, j)
      {
        UniformInitsAgree(sizes, |shards[j].x|);
      }
    }
  }

  // ---------------------------------------------------------------------
  // 2. Permutation: what each worker sends

  /** `send_count` on every worker, one row per worker. */
  function Plan<V, P>(shards: seq<Shard<V, P>>): (counts: seq<seq<nat>>)
    ensures IsPlan(counts) && |counts| == |shards|
  {
    seq(|shards|, j requires 0 <= j < |shards| => SendCounts(shards[j].picks, |shards|))
  }

  /** `send_ids` on worker `j`. */
  function Ids<V, P>(cfg: Config<V>, shards: seq<Shard<V, P>>, j: nat): (ids: seq<Meta>)
    requires j < |shards|
    ensures |ids| == Sum(Plan(shards)[j])
  {
    SendLengths(shards[j].picks, |shards|, BatchOffset(cfg, shards, j));
    SendIds(shards[j].picks, |shards|, BatchOffset(cfg, shards, j))
  }

  /** `send_toks` on worker `j`. */
  function Toks<V, P>(shards: seq<Shard<V, P>>, j: nat): (toks: seq<V>)
    requires j < |shards| && Covers(shards[j].x, shards[j].picks)
    ensures |toks| == Sum(Plan(shards)[j])
  {
    SendLengths(shards[j].picks, |shards|, 0);
    SendToks(shards[j].x, shards[j].picks, |shards|)
  }

  /** `torch.concatenate(probs_per_expert)` on worker `j`. */
  function Probs<V, P>(shards: seq<Shard<V, P>>, j: nat): (probs: seq<P>)
    requires j < |shards|
    ensures |probs| == Sum(Plan(shards)[j])
  {
    SendLengths(shards[j].picks, |shards|, 0);
    SendProbs(shards[j].picks, |shards|)
  }

  /** Every worker's `send_ids`, side by side. */
  function IdBufs<V, P>(cfg: Config<V>, shards: seq<Shard<V, P>>): (bufs: seq<seq<Meta>>)
    ensures Fits(bufs, Plan(shards))
  {
    seq(|shards|, j requires 0 <= j < |shards| => Ids(cfg, shards, j))
  }

  /** Every worker's `send_toks`, side by side. */
  function TokBufs<V, P>(cfg: Config<V>, shards: seq<Shard<V, P>>): (bufs: seq<seq<V>>)
    requires ValidShards(cfg, shards)
    ensures Fits(bufs, Plan(shards))
  {
    seq(|shards|, j requires 0 <= j < |shards| => Toks(shards, j))
  }

  /** `recv_ids` on every worker (:78-80). */
  function RecvIds<V, P>(cfg: Config<V>, shards: seq<Shard<V, P>>): (recv: seq<seq<Meta>>)
    ensures Fits(recv, Transpose(Plan(shards)))
  {
    AllToAll(IdBufs(cfg, shards), Plan(shards))
  }

  /** `recv_toks` on every worker (:84-86). */
  function RecvToks<V, P>(cfg: Config<V>, shards: seq<Shard<V, P>>): (recv: seq<seq<V>>)
    requires ValidShards(cfg, shards)
    ensures Fits(recv, Transpose(Plan(shards)))
  {
    AllToAll(TokBufs(cfg, shards), Plan(shards))
  }

  /** After the count exchange every worker knows how much it receives from
      each peer: `recv_count` is the transpose of `send_count`, and it sizes
      the receive buffers. */
  lemma RecvCounts<V, P>(cfg: Config<V>, shards: seq<Shard<V, P>>, i: nat)
    requires ValidShards(cfg, shards) && i < |shards|
    ensures CountExchange(Plan(shards))[i] == Column(Plan(shards), i)
    ensures |RecvIds(cfg, shards)[i]| == |RecvToks(cfg, shards)[i]| == Sum(Column(Plan(shards), i))
  {
    CountExchangeTransposes(Plan(shards));
  }

  /** Entry `q` of worker `j`'s send buffers: its coordinates, made global,
      name a real token of `x`, and the expert chosen for it is the worker
      that receives it, next to the token itself. */
  lemma Routed<V, P>(cfg: Config<V>, shards: seq<Shard<V, P>>, j: nat, q: nat)
    requires ValidShards(cfg, shards) && j < |shards| && q < Sum(Plan(shards)[j])
    ensures var m := Ids(cfg, shards, j)[q];
      BatchOffset(cfg, shards, j) <= m.row && m.row - BatchOffset(cfg, shards, j) < |shards[j].x| &&
      m.pos < cfg.seqLen && m.slot < cfg.k
    ensures var m := Ids(cfg, shards, j)[q];
      var b := m.row - BatchOffset(cfg, shards, j);
      var at := Dest(Plan(shards), j, q);
      at.worker == shards[j].picks[b][m.pos][m.slot].expert &&
      Probs(shards, j)[q] == shards[j].picks[b][m.pos][m.slot].weight &&
      at.index < |RecvIds(cfg, shards)[at.worker]| &&
      RecvIds(cfg, shards)[at.worker][at.index] == m &&
      RecvToks(cfg, shards)[at.worker][at.index] == shards[j].x[b][m.pos]
  {
    var w := |shards|;
    var picks := shards[j].picks;
    var off := BatchOffset(cfg, shards, j);
    SendLengths(picks, w, off);
    SendAligned(shards[j].x, picks, w, off, q);
    var ids := IdBufs(cfg, shards);
    var toks := TokBufs(cfg, shards);
    assert ids[j] == SendIds(picks, w, off);
    assert toks[j] == SendToks(shards[j].x, picks, w);
    ForwardAt(ids, Plan(shards), j, q);
    ForwardAt(toks, Plan(shards), j, q);
  }

  /** The rows of every sender's block lie in its own row range and never
      decrease, and senders arrive in rank order with adjacent ranges, so
      the received row ids `recv_ids[:,0]` never decrease: the contiguous
      slicing by `unique` counts is valid. */
  lemma RecvRowsSorted<V, P>(cfg: Config<V>, shards: seq<Shard<V, P>>, i: nat)
    requires ValidShards(cfg, shards) && Consistent(cfg, shards) && i < |shards|
    ensures NonDecreasing(Rows(RecvIds(cfg, shards)[i]))
  {
    var blocks: seq<seq<Meta>> := Inbox(IdBufs(cfg, shards), Plan(shards), i);
    var sizes := BatchSizes(shards);
    assert |blocks| == |Lens(blocks)| == |Column(Plan(shards), i)| == |shards|;
    forall j | 0 <= j < |blocks|
      ensures RowsWithin(blocks[j], Prefix(sizes, j), Prefix(sizes, j + 1))
      ensures NonDecreasing(Rows(blocks[j]))
    {
      BlockRows(cfg, shards, i, j);
    }
    ConcatSorted(blocks, sizes);
    assert RecvIds(cfg, shards)[i] == Concat(blocks);
  }

  /** Every row id of `ids` lies in `[lo, hi)`. */
  predicate RowsWithin(ids: seq<Meta>, lo: nat, hi: nat)
  {
    forall d :: 0 <= d < |ids| ==> lo <= ids[d].row < hi
  }

  /** The block sender `j` earmarks for worker `i` holds rows of `j`'s own
      range only, in non-decreasing order. */
  lemma BlockRows<V, P>(cfg: Config<V>, shards: seq<Shard<V, P>>, i: nat, j: nat)
    requires ValidShards(cfg, shards) && Consistent(cfg, shards) && i < |shards| && j < |shards|
    ensures var blk := Inbox(IdBufs(cfg, shards), Plan(shards), i)[j];
      RowsWithin(blk, Prefix(BatchSizes(shards), j), Prefix(BatchSizes(shards), j + 1)) &&
      NonDecreasing(Rows(blk))
  {
    SendBlockRows(shards[j].picks, |shards|, BatchOffset(cfg, shards, j), i);
    OffsetsArePrefixSums(cfg, shards);
    PrefixStep(BatchSizes(shards), j);
    assert Inbox(IdBufs(cfg, shards), Plan(shards), i)[j] == Segment(Ids(cfg, shards, j), Plan(shards)[j], i);
  }

  /** `recv_ids[:,0]` */
  function Rows(ids: seq<Meta>): (rows: seq<nat>)
    ensures |rows| == |ids|
  {
    seq(|ids|, p requires 0 <= p < |ids| => ids[p].row)
  }

  lemma LocateMono(lens: seq<nat>, p: nat, p': nat)
    requires p <= p' < Sum(lens)
    ensures Locate(lens, p) <= Locate(lens, p')
  {
    var r := Locate(lens, p);
    var r' := Locate(lens, p');
    if r' < r {
      PrefixMono(lens, r' + 1, r);
    }
  }

  /** Blocks that are each sorted by row, inside row ranges that follow one
      another (block `j` within the `j`-th of the ranges of sizes `sizes`),
      concatenate to a sequence sorted by row. */
  lemma ConcatSorted(bs: seq<seq<Meta>>, sizes: seq<nat>)
    requires |sizes| == |bs|
    requires forall j :: 0 <= j < |bs| ==> RowsWithin(bs[j], Prefix(sizes, j), Prefix(sizes, j + 1))
    requires forall j :: 0 <= j < |bs| ==> NonDecreasing(Rows(bs[j]))
    ensures NonDecreasing(Rows(Concat(bs)))
  {
    var all := Concat(bs);
    forall p, p' | 0 <= p <= p' < |all|
      ensures all[p].row <= all[p'].row
    {
      ConcatPair(bs, sizes, p, p');
    }
  }

  lemma ConcatPair(bs: seq<seq<Meta>>, sizes: seq<nat>, p: nat, p': nat)
    requires |sizes| == |bs|
    requires forall j :: 0 <= j < |bs| ==> RowsWithin(bs[j], Prefix(sizes, j), Prefix(sizes, j + 1))
    requires forall j :: 0 <= j < |bs| ==> NonDecreasing(Rows(bs[j]))
    requires p <= p' < |Concat(bs)|
    ensures Concat(bs)[p].row <= Concat(bs)[p'].row
  {
    var r, d, r', d' := ConcatPlaces(bs, p, p');
    PairOrdered(bs, sizes, r, d, r', d');
  }

  /** Where two ordered positions of a concatenation lie: block `r`, offset
      `d`, and block `r'`, offset `d'`, in the same order. */
  lemma ConcatPlaces(bs: seq<seq<Meta>>, p: nat, p': nat) returns (r: nat, d: nat, r': nat, d': nat)
    requires p <= p' < |Concat(bs)|
    ensures r <= r' < |bs| && d < |bs[r]| && d' < |bs[r']| && (r == r' ==> d <= d')
    ensures Concat(bs)[p] == bs[r][d] && Concat(bs)[p'] == bs[r'][d']
  {
    ConcatLocate(bs, p);
    ConcatLocate(bs, p');
    var lens := Lens(bs);
    r, r' := Locate(lens, p), Locate(lens, p');
    LocateMono(lens, p, p');
    d, d' := p - Prefix(lens, r), p' - Prefix(lens, r');
  }

  lemma PairOrdered(bs: seq<seq<Meta>>, sizes: seq<nat>, r: nat, d: nat, r': nat, d': nat)
    requires |sizes| == |bs| && r <= r' < |bs| && d < |bs[r]| && d' < |bs[r']| && (r == r' ==> d <= d')
    requires RowsWithin(bs[r], Prefix(sizes, r), Prefix(sizes, r + 1))
    requires RowsWithin(bs[r'], Prefix(sizes, r'), Prefix(sizes, r' + 1))
    requires NonDecreasing(Rows(bs[r]))
    ensures bs[r][d].row <= bs[r'][d'].row
  {
    if r < r' {
      PrefixMono(sizes, r + 1, r');
    } else {
      assert Rows(bs[r])[d] <= Rows(bs[r])[d'];
    }
  }

  // ---------------------------------------------------------------------
  // 2-3. Grouping on the expert worker, and the expert

  /** `recv_row_lens` on worker `i`. */
  function GroupLens<V, P>(cfg: Config<V>, shards: seq<Shard<V, P>>, i: nat): (lens: seq<nat>)
    requires i < |shards|
    ensures Sum(lens) == |RecvIds(cfg, shards)[i]|
  {
    var rows := Rows(RecvIds(cfg, shards)[i]);
    CountsCover(rows);
    RowCounts(rows, UniqueRows(rows))
  }

  /** `batch_toks` on worker `i` before the expert (:94-96). */
  function ExpertBatch<V, P>(cfg: Config<V>, shards: seq<Shard<V, P>>, i: nat): (batch: seq<seq<V>>)
    requires ValidShards(cfg, shards) && i < |shards|
    ensures Rect(batch, |GroupLens(cfg, shards, i)|, cfg.capacity)
  {
    BatchToks(RecvToks(cfg, shards)[i], GroupLens(cfg, shards, i), cfg.capacity, cfg.pad)
  }

  /** Steps 2-4 on expert worker `i`: group, crop or pad, run the expert and
      scatter its real outputs into the reset `recv_toks`. A worker that
      received nothing fails: `torch.stack` of no rows raises. */
  function ExpertStep<V(!new), P>(cfg: Config<V>, shards: seq<Shard<V, P>>, expert: Expert<V>, i: nat): (back: Option<seq<V>>)
    requires ValidShards(cfg, shards) && i < |shards| && PreservesShape(expert, cfg.capacity)
    ensures back.Some? <==> |RecvIds(cfg, shards)[i]| > 0
    ensures back.Some? ==> |back.value| == |RecvToks(cfg, shards)[i]|
  {
    var rows := Rows(RecvIds(cfg, shards)[i]);
    if |UniqueRows(rows)| == 0 then
      None
    else
      var lens := GroupLens(cfg, shards, i);
      Some(BackBuffer(|RecvToks(cfg, shards)[i]|, lens, cfg.capacity, cfg.pad, expert(ExpertBatch(cfg, shards, i))))
  }

  /** What every expert worker sends back, or `None` when one of them fails. */
  function Replies<V(!new), P>(cfg: Config<V>, shards: seq<Shard<V, P>>, experts: seq<Expert<V>>): (r: Option<seq<seq<V>>>)
    requires ValidShards(cfg, shards) && ValidExperts(cfg, experts, |shards|)
    ensures r.Some? <==> forall i :: 0 <= i < |shards| ==> |RecvIds(cfg, shards)[i]| > 0
    ensures r.Some? ==> Fits(r.value, Transpose(Plan(shards)))
  {
    if exists i :: 0 <= i < |shards| && |RecvIds(cfg, shards)[i]| == 0 then None
    else Some(seq(|shards|, i requires 0 <= i < |shards| => ExpertStep(cfg, shards, experts[i], i).value))
  }

  // ---------------------------------------------------------------------
  // 4-5. Back home, scaled and combined

  /** Worker `j`'s output as the program writes it (:111-115): the returned
      results, scaled by their probabilities, summed slot by slot in send
      order and reshaped to B_j × T. */
  function Combined<V, P>(ops: Ops<V, P>, cfg: Config<V>, shards: seq<Shard<V, P>>, j: nat, returned: seq<V>): (out: seq<seq<V>>)
    requires ValidShards(cfg, shards) && j < |shards| && cfg.k >= 1
    requires |returned| == Sum(Plan(shards)[j])
    ensures Rect(out, |shards[j].x|, cfg.seqLen)
  {
    SendShape(cfg, shards, j);
    CombineAsWritten(ops, returned, Probs(shards, j), Ids(cfg, shards, j), cfg.k, |shards[j].x|, cfg.seqLen)
  }

  /** Worker `j`'s output as intended: the returned results, scaled by
      their probabilities (:112) and added up per input token by
      coordinates. */
  function CombinedCorrected<V, P>(ops: Ops<V, P>, cfg: Config<V>, shards: seq<Shard<V, P>>, j: nat, returned: seq<V>): (out: seq<seq<V>>)
    requires ValidShards(cfg, shards) && j < |shards| && cfg.k >= 1
    requires |returned| == Sum(Plan(shards)[j])
    ensures Rect(out, |shards[j].x|, cfg.seqLen)
  {
    var off := BatchOffset(cfg, shards, j);
    SendIdsComplete(shards[j].picks, cfg.seqLen, cfg.k, |shards|, off);
    CombineByOrigin(ops, ScaleAll(ops, returned, Probs(shards, j)), Ids(cfg, shards, j),
                    off, |shards[j].x|, cfg.seqLen, cfg.k)
  }

  /** Worker `j` sends B_j · T · k entries, B_j · T of them for every top-k
      slot, which is what `view` and `torch.stack` need at :111-114. */
  lemma SendShape<V, P>(cfg: Config<V>, shards: seq<Shard<V, P>>, j: nat)
    requires ValidShards(cfg, shards) && j < |shards|
    ensures Sum(Plan(shards)[j]) == |shards[j].x| * (cfg.seqLen * cfg.k)
    ensures EvenSlots(Ids(cfg, shards, j), cfg.k, |shards[j].x| * cfg.seqLen)
  {
    CountConservation(shards[j].picks, cfg.seqLen, cfg.k, |shards|);
    forall s | 0 <= s < cfg.k
      ensures SlotCount(Ids(cfg, shards, j), s) == |shards[j].x| * cfg.seqLen
    {
      SendSlotCount(shards[j].picks, cfg.seqLen, cfg.k, |shards|, BatchOffset(cfg, shards, j), s);
    }
  }

  /** With no top-k slots nothing is sent, so nobody receives anything. */
  lemma NoChoicesNoTraffic<V, P>(cfg: Config<V>, shards: seq<Shard<V, P>>, i: nat)
    requires ValidShards(cfg, shards) && cfg.k == 0 && i < |shards|
    ensures |RecvIds(cfg, shards)[i]| == 0
  {
    var plan := Plan(shards);
    forall j | 0 <= j < |shards|
      ensures plan[j][i] == 0
    {
      CountConservation(shards[j].picks, cfg.seqLen, 0, |shards|);
      PrefixStep(plan[j], i);
      PrefixBound(plan[j], i + 1);
    }
    SumConst(Column(plan, i), 0);
  }

  /** Some worker receiving something means there are top-k slots. */
  lemma SomeChoices<V, P>(cfg: Config<V>, shards: seq<Shard<V, P>>, i: nat)
    requires ValidShards(cfg, shards) && i < |shards| && |RecvIds(cfg, shards)[i]| > 0
    ensures cfg.k >= 1
  {
    if cfg.k == 0 {
      NoChoicesNoTraffic(cfg, shards, i);
    }
  }

  /** Worker `i` receives exactly what column `i` of the plan announces. */
  lemma RecvSizes<V, P>(cfg: Config<V>, shards: seq<Shard<V, P>>)
    ensures forall i :: 0 <= i < |shards| ==> |RecvIds(cfg, shards)[i]| == Sum(Column(Plan(shards), i))
  {
    var plan := Plan(shards);
    forall i | 0 <= i < |shards|
      ensures |RecvIds(cfg, shards)[i]| == Sum(Column(plan, i))
    {
      assert Transpose(plan)[i] == Column(plan, i);
    }
  }

  /** Steps 4-5 on every worker as written: the reverse exchange of the
      replies, then the scale, slot sum and reshape of what came back. */
  function Outputs<V, P>(ops: Ops<V, P>, cfg: Config<V>, shards: seq<Shard<V, P>>, replies: seq<seq<V>>): (out: seq<seq<seq<V>>>)
    requires ValidShards(cfg, shards) && Fits(replies, Transpose(Plan(shards)))
    requires |shards| > 0 ==> cfg.k >= 1
    ensures |out| == |shards| && forall j :: 0 <= j < |shards| ==> Rect(out[j], |shards[j].x|, cfg.seqLen)
  {
    var returned := AllToAll(replies, Transpose(Plan(shards)));
    TransposeTwice(Plan(shards));
    seq(|shards|, j requires 0 <= j < |shards| => Combined(ops, cfg, shards, j, returned[j]))
  }

  /** Steps 4-5 on every worker with the combine by coordinates. */
  function OutputsCorrected<V, P>(ops: Ops<V, P>, cfg: Config<V>, shards: seq<Shard<V, P>>, replies: seq<seq<V>>): (out: seq<seq<seq<V>>>)
    requires ValidShards(cfg, shards) && Fits(replies, Transpose(Plan(shards)))
    requires |shards| > 0 ==> cfg.k >= 1
    ensures |out| == |shards| && forall j :: 0 <= j < |shards| ==> Rect(out[j], |shards[j].x|, cfg.seqLen)
  {
    var returned := AllToAll(replies, Transpose(Plan(shards)));
    TransposeTwice(Plan(shards));
    seq(|shards|, j requires 0 <= j < |shards| => CombinedCorrected(ops, cfg, shards, j, returned[j]))
  }

  /** The whole forward pass as the program runs it. It fails exactly when
      some expert worker receives nothing, and otherwise gives every worker
      a B_j × T output. */
  function Forward<V(!new), P>(ops: Ops<V, P>, cfg: Config<V>, shards: seq<Shard<V, P>>, experts: seq<Expert<V>>): (r: Outcome<V>)
    requires ValidShards(cfg, shards) && ValidExperts(cfg, experts, |shards|)
    ensures r.Failed? <==> exists i :: 0 <= i < |shards| && Sum(Column(Plan(shards), i)) == 0
    ensures r.Done? ==> |r.out| == |shards| && forall j :: 0 <= j < |shards| ==> Rect(r.out[j], |shards[j].x|, cfg.seqLen)
  {
    RecvSizes(cfg, shards);
    match Replies(cfg, shards, experts)
    case None => Failed
    case Some(replies) =>
      if |shards| > 0 then SomeChoices(cfg, shards, 0); Done(Outputs(ops, cfg, shards, replies))
      else Done(Outputs(ops, cfg, shards, replies))
  }

  /** The forward pass with the combine by coordinates: the same failure
      condition and output shape. */
  function ForwardCorrected<V(!new), P>(ops: Ops<V, P>, cfg: Config<V>, shards: seq<Shard<V, P>>, experts: seq<Expert<V>>): (r: Outcome<V>)
    requires ValidShards(cfg, shards) && ValidExperts(cfg, experts, |shards|)
    ensures r.Failed? <==> exists i :: 0 <= i < |shards| && Sum(Column(Plan(shards), i)) == 0
    ensures r.Done? ==> |r.out| == |shards| && forall j :: 0 <= j < |shards| ==> Rect(r.out[j], |shards[j].x|, cfg.seqLen)
  {
    RecvSizes(cfg, shards);
    match Replies(cfg, shards, experts)
    case None => Failed
    case Some(replies) =>
      if |shards| > 0 then SomeChoices(cfg, shards, 0); Done(OutputsCorrected(ops, cfg, shards, replies))
      else Done(OutputsCorrected(ops, cfg, shards, replies))
  }

  // ---------------------------------------------------------------------
  // End to end: what every worker's output holds

  /** Where entry `q` of worker `j`'s send buffer sits in the padded batch of
      the expert worker that receives it: the group of its received
      position, and its depth within that group. */
  function BatchSlot<V, P>(cfg: Config<V>, shards: seq<Shard<V, P>>, j: nat, q: nat): (sl: Slot)
    requires j < |shards| && q < Sum(Plan(shards)[j])
    ensures var lens := GroupLens(cfg, shards, Dest(Plan(shards), j, q).worker);
      sl.group < |lens| && sl.index < lens[sl.group] &&
      Prefix(lens, sl.group) + sl.index == Dest(Plan(shards), j, q).index
  {
    var at := Dest(Plan(shards), j, q);
    var lens := GroupLens(cfg, shards, at.worker);
    RecvSizes(cfg, shards);
    var r := Locate(lens, at.index);
    PrefixStep(lens, r);
    Slot(r, at.index - Prefix(lens, r))
  }

  /** The token stays in its expert's batch unless its group overflows the
      capacity. */
  predicate Kept<V, P>(cfg: Config<V>, shards: seq<Shard<V, P>>, j: nat, q: nat)
    requires j < |shards| && q < Sum(Plan(shards)[j])
  {
    BatchSlot(cfg, shards, j, q).index < cfg.capacity
  }

  /** Each group of an expert's batch is one input row: the group an entry
      lands in is the group `unique` made for the entry's global row. */
  lemma GroupIsRow<V, P>(cfg: Config<V>, shards: seq<Shard<V, P>>, j: nat, q: nat)
    requires ValidShards(cfg, shards) && Consistent(cfg, shards) && j < |shards| && q < Sum(Plan(shards)[j])
    ensures var i := Dest(Plan(shards), j, q).worker;
      var u := UniqueRows(Rows(RecvIds(cfg, shards)[i]));
      BatchSlot(cfg, shards, j, q).group < |u| && u[BatchSlot(cfg, shards, j, q).group] == Ids(cfg, shards, j)[q].row
  {
    var at := Dest(Plan(shards), j, q);
    var rows := Rows(RecvIds(cfg, shards)[at.worker]);
    Routed(cfg, shards, j, q);
    RecvRowsSorted(cfg, shards, at.worker);
    GroupsAreContiguous(rows);
    var lens := GroupLens(cfg, shards, at.worker);
    LocateUnique(lens, at.index, BatchSlot(cfg, shards, j, q).group);
  }

  /** A kept entry is, in its expert's batch, the very token it was sent for. */
  lemma BatchedToken<V, P>(cfg: Config<V>, shards: seq<Shard<V, P>>, j: nat, q: nat)
    requires ValidShards(cfg, shards) && j < |shards| && q < Sum(Plan(shards)[j]) && Kept(cfg, shards, j, q)
    ensures var m := Ids(cfg, shards, j)[q];
      var sl := BatchSlot(cfg, shards, j, q);
      var batch := ExpertBatch(cfg, shards, Dest(Plan(shards), j, q).worker);
      BatchOffset(cfg, shards, j) <= m.row && m.row - BatchOffset(cfg, shards, j) < |shards[j].x| &&
      m.pos < |shards[j].x[m.row - BatchOffset(cfg, shards, j)]| &&
      batch[sl.group][sl.index] == shards[j].x[m.row - BatchOffset(cfg, shards, j)][m.pos]
  {
    Routed(cfg, shards, j, q);
    BatchedReceived(cfg, shards, j, q);
  }

  /** A kept entry's batch slot holds what arrived at its received position. */
  lemma BatchedReceived<V, P>(cfg: Config<V>, shards: seq<Shard<V, P>>, j: nat, q: nat)
    requires ValidShards(cfg, shards) && j < |shards| && q < Sum(Plan(shards)[j]) && Kept(cfg, shards, j, q)
    ensures var i := Dest(Plan(shards), j, q).worker;
      var sl := BatchSlot(cfg, shards, j, q);
      Dest(Plan(shards), j, q).index < |RecvToks(cfg, shards)[i]| &&
      ExpertBatch(cfg, shards, i)[sl.group][sl.index] == RecvToks(cfg, shards)[i][Dest(Plan(shards), j, q).index]
  {
    var i := Dest(Plan(shards), j, q).worker;
    var sl := BatchSlot(cfg, shards, j, q);
    var lens := GroupLens(cfg, shards, i);
    RecvCounts(cfg, shards, i);
    var toks := RecvToks(cfg, shards)[i];
    assert ExpertBatch(cfg, shards, i) == BatchToks(toks, lens, cfg.capacity, cfg.pad);
    KeptSlot(toks, lens, cfg.capacity, cfg.pad, sl.group, sl.index, Dest(Plan(shards), j, q).index);
  }

  /** A kept slot of a padded batch holds the received token at its
      position. */
  lemma KeptSlot<V>(toks: seq<V>, lens: seq<nat>, capacity: nat, pad: V, g: nat, d: nat, pos: nat)
    requires Sum(lens) == |toks| && g < |lens| && d < lens[g] && d < capacity
    requires Prefix(lens, g) + d == pos
    ensures pos < |toks| && BatchToks(toks, lens, capacity, pad)[g][d] == toks[pos]
  {
    BatchHoldsGroups(toks, lens, capacity, pad, g, d);
  }

  /** What comes back for entry `q` of worker `j`: what the expert made of
      its batch slot if the token was kept, and `padding_val` otherwise. */
  function Reply<V(!new), P>(cfg: Config<V>, shards: seq<Shard<V, P>>, experts: seq<Expert<V>>, j: nat, q: nat): V
    requires ValidShards(cfg, shards) && ValidExperts(cfg, experts, |shards|)
    requires j < |shards| && q < Sum(Plan(shards)[j])
  {
    var i := Dest(Plan(shards), j, q).worker;
    var sl := BatchSlot(cfg, shards, j, q);
    var batch := ExpertBatch(cfg, shards, i);
    if sl.index < cfg.capacity then experts[i](batch)[sl.group][sl.index] else cfg.pad
  }

  /** The replies of all expert workers, exchanged back with the counts
      swapped. */
  function Returned<V(!new), P>(cfg: Config<V>, shards: seq<Shard<V, P>>, experts: seq<Expert<V>>): (r: seq<seq<V>>)
    requires ValidShards(cfg, shards) && ValidExperts(cfg, experts, |shards|)
    requires Replies(cfg, shards, experts).Some?
    ensures Fits(r, Plan(shards))
  {
    TransposeTwice(Plan(shards));
    AllToAll(Replies(cfg, shards, experts).value, Transpose(Plan(shards)))
  }

  /** Expert worker `i` replies with its back buffer: the expert's outputs
      scattered to the received positions, `padding_val` elsewhere. */
  lemma ReplyBuffer<V(!new), P>(cfg: Config<V>, shards: seq<Shard<V, P>>, experts: seq<Expert<V>>, i: nat)
    requires ValidShards(cfg, shards) && ValidExperts(cfg, experts, |shards|)
    requires Replies(cfg, shards, experts).Some? && i < |shards|
    ensures Sum(GroupLens(cfg, shards, i)) == |RecvToks(cfg, shards)[i]|
    ensures Rect(experts[i](ExpertBatch(cfg, shards, i)), |GroupLens(cfg, shards, i)|, cfg.capacity)
    ensures Replies(cfg, shards, experts).value[i] ==
      BackBuffer(|RecvToks(cfg, shards)[i]|, GroupLens(cfg, shards, i), cfg.capacity, cfg.pad, experts[i](ExpertBatch(cfg, shards, i)))
  {
    RecvCounts(cfg, shards, i);
  }

  /** After the reverse exchange, entry `q` of worker `j`'s `send_toks` is
      the reply for the choice it sent from there: the scatter and the
      reverse exchange put every result back where its token left. */
  lemma ReturnedAt<V(!new), P>(cfg: Config<V>, shards: seq<Shard<V, P>>, experts: seq<Expert<V>>, j: nat, q: nat)
    requires ValidShards(cfg, shards) && ValidExperts(cfg, experts, |shards|)
    requires Replies(cfg, shards, experts).Some?
    requires j < |shards| && q < Sum(Plan(shards)[j])
    ensures Returned(cfg, shards, experts)[j][q] == Reply(cfg, shards, experts, j, q)
  {
    var plan := Plan(shards);
    var replies := Replies(cfg, shards, experts).value;
    var at := Dest(plan, j, q);
    var i := at.worker;
    ReverseAt(replies, plan, j, q);
    ReplyBuffer(cfg, shards, experts, i);
    BackAtSlot(cfg, shards, j, q, experts[i](ExpertBatch(cfg, shards, i)));
  }

  /** Position `Dest(j, q)` of expert worker `i`'s back buffer holds the
      expert's output at the entry's batch slot, or `padding_val` when the
      entry was cropped away. */
  lemma BackAtSlot<V, P>(cfg: Config<V>, shards: seq<Shard<V, P>>, j: nat, q: nat, out: seq<seq<V>>)
    requires ValidShards(cfg, shards) && j < |shards| && q < Sum(Plan(shards)[j])
    requires Rect(out, |GroupLens(cfg, shards, Dest(Plan(shards), j, q).worker)|, cfg.capacity)
    ensures var i := Dest(Plan(shards), j, q).worker;
      var sl := BatchSlot(cfg, shards, j, q);
      Sum(GroupLens(cfg, shards, i)) == |RecvToks(cfg, shards)[i]| &&
      Dest(Plan(shards), j, q).index < |RecvToks(cfg, shards)[i]| &&
      BackBuffer(|RecvToks(cfg, shards)[i]|, GroupLens(cfg, shards, i), cfg.capacity, cfg.pad, out)[Dest(Plan(shards), j, q).index] ==
        if sl.index < cfg.capacity then out[sl.group][sl.index] else cfg.pad
  {
    var at := Dest(Plan(shards), j, q);
    var i := at.worker;
    var lens := GroupLens(cfg, shards, i);
    var sl := BatchSlot(cfg, shards, j, q);
    RecvCounts(cfg, shards, i);
    BackBufferSlot(|RecvToks(cfg, shards)[i]|, lens, cfg.capacity, cfg.pad, out, sl.group, sl.index, at.index);
  }

  /** The entry of worker `j`'s send buffers that carries choice `s` of
      token `(b, t)`: the one whose coordinates are `(offset + b, t, s)`. */
  function Origin<V, P>(cfg: Config<V>, shards: seq<Shard<V, P>>, j: nat, b: nat, t: nat, s: nat): (q: nat)
    requires ValidShards(cfg, shards) && j < |shards| && b < |shards[j].x| && t < cfg.seqLen && s < cfg.k
    ensures q < Sum(Plan(shards)[j]) && Ids(cfg, shards, j)[q] == Meta(BatchOffset(cfg, shards, j) + b, t, s)
  {
    SendIdsComplete(shards[j].picks, cfg.seqLen, cfg.k, |shards|, BatchOffset(cfg, shards, j));
    IndexOf(Ids(cfg, shards, j), Meta(BatchOffset(cfg, shards, j) + b, t, s))
  }

  /** A completed forward pass, as written or corrected, is the reverse
      exchange and combine of the expert workers' replies, and there are
      top-k slots to combine. */
  lemma ForwardDone<V(!new), P>(ops: Ops<V, P>, cfg: Config<V>, shards: seq<Shard<V, P>>, experts: seq<Expert<V>>)
    requires ValidShards(cfg, shards) && ValidExperts(cfg, experts, |shards|)
    requires Forward(ops, cfg, shards, experts).Done? && |shards| > 0
    ensures cfg.k >= 1 && Replies(cfg, shards, experts).Some?
    ensures Forward(ops, cfg, shards, experts).out == Outputs(ops, cfg, shards, Replies(cfg, shards, experts).value)
    ensures ForwardCorrected(ops, cfg, shards, experts).Done? &&
      ForwardCorrected(ops, cfg, shards, experts).out == OutputsCorrected(ops, cfg, shards, Replies(cfg, shards, experts).value)
  {
    assert Replies(cfg, shards, experts).Some?;
    SomeChoices(cfg, shards, 0);
  }

  /** The converse of the last clause of `ForwardDone`: the two passes fail
      on exactly the same inputs. */
  lemma CorrectedDone<V(!new), P>(ops: Ops<V, P>, cfg: Config<V>, shards: seq<Shard<V, P>>, experts: seq<Expert<V>>)
    requires ValidShards(cfg, shards) && ValidExperts(cfg, experts, |shards|)
    requires ForwardCorrected(ops, cfg, shards, experts).Done?
    ensures Forward(ops, cfg, shards, experts).Done?
  {
  }

  /** Entry `q` of worker `j`'s probabilities is the weight of the choice
      it carries. */
  lemma ProbAt<V, P>(cfg: Config<V>, shards: seq<Shard<V, P>>, j: nat, b: nat, t: nat, s: nat)
    requires ValidShards(cfg, shards) && j < |shards| && b < |shards[j].x| && t < cfg.seqLen && s < cfg.k
    ensures Probs(shards, j)[Origin(cfg, shards, j, b, t, s)] == shards[j].picks[b][t][s].weight
  {
    var q := Origin(cfg, shards, j, b, t, s);
    var off := BatchOffset(cfg, shards, j);
    SendLengths(shards[j].picks, |shards|, off);
    SendAligned(shards[j].x, shards[j].picks, |shards|, off, q);
  }

  /** The entries carrying the k choices of token `(b, t)`. */
  function Origins<V, P>(cfg: Config<V>, shards: seq<Shard<V, P>>, j: nat, b: nat, t: nat): (qs: seq<nat>)
    requires ValidShards(cfg, shards) && j < |shards| && b < |shards[j].x| && t < cfg.seqLen
    ensures |qs| == cfg.k
    ensures forall s :: 0 <= s < cfg.k ==> qs[s] == Origin(cfg, shards, j, b, t, s)
    ensures forall s :: 0 <= s < cfg.k ==> qs[s] < Sum(Plan(shards)[j])
  {
    seq(cfg.k, s requires 0 <= s < cfg.k => Origin(cfg, shards, j, b, t, s))
  }

  /** The router's weights for the k choices of token `(b, t)`. */
  function TokenWeights<V, P>(cfg: Config<V>, shards: seq<Shard<V, P>>, j: nat, b: nat, t: nat): (ws: seq<P>)
    requires ValidShards(cfg, shards) && j < |shards| && b < |shards[j].x| && t < cfg.seqLen
    ensures |ws| == cfg.k
    ensures forall s :: 0 <= s < cfg.k ==> ws[s] == shards[j].picks[b][t][s].weight
  {
    seq(cfg.k, s requires 0 <= s < cfg.k => shards[j].picks[b][t][s].weight)
  }

  /** Output `(b, t)` of worker `j`'s corrected combine adds, over the k
      slots, the returned result of that token's slot-`s` choice scaled by
      its weight. */
  lemma CombinedCorrectedAt<V, P>(ops: Ops<V, P>, cfg: Config<V>, shards: seq<Shard<V, P>>, j: nat, returned: seq<V>, b: nat, t: nat)
    requires ValidShards(cfg, shards) && j < |shards| && cfg.k >= 1
    requires |returned| == Sum(Plan(shards)[j])
    requires b < |shards[j].x| && t < cfg.seqLen
    ensures CombinedCorrected(ops, cfg, shards, j, returned)[b][t] ==
      Fold(ops, ScaleAll(ops, Gather(returned, Origins(cfg, shards, j, b, t)), TokenWeights(cfg, shards, j, b, t)))
  {
    var off := BatchOffset(cfg, shards, j);
    var qs := Origins(cfg, shards, j, b, t);
    var ws := TokenWeights(cfg, shards, j, b, t);
    var ids := Ids(cfg, shards, j);
    var probs := Probs(shards, j);
    SendIdsComplete(shards[j].picks, cfg.seqLen, cfg.k, |shards|, off);
    SendIdsNoDup(shards[j].picks, cfg.seqLen, cfg.k, |shards|, off);
    forall s | 0 <= s < cfg.k
      ensures qs[s] < |ids| && ids[qs[s]] == Meta(off + b, t, s) && probs[qs[s]] == ws[s]
    {
      ProbAt(cfg, shards, j, b, t, s);
    }
    ByOriginScaled(ops, returned, probs, ids, off, |shards[j].x|, cfg.seqLen, cfg.k, b, t, qs, ws);
  }

  /** What came back for entries `qs` of worker `j`. */
  function RepliesAt<V(!new), P>(cfg: Config<V>, shards: seq<Shard<V, P>>, experts: seq<Expert<V>>, j: nat, qs: seq<nat>): (rs: seq<V>)
    requires ValidShards(cfg, shards) && ValidExperts(cfg, experts, |shards|)
    requires j < |shards| && forall s :: 0 <= s < |qs| ==> qs[s] < Sum(Plan(shards)[j])
    ensures |rs| == |qs|
  {
    seq(|qs|, s requires 0 <= s < |qs| => Reply(cfg, shards, experts, j, qs[s]))
  }

  /** The returned buffer, read at any entries, holds their replies. */
  lemma ReturnedGather<V(!new), P>(cfg: Config<V>, shards: seq<Shard<V, P>>, experts: seq<Expert<V>>, j: nat, qs: seq<nat>)
    requires ValidShards(cfg, shards) && ValidExperts(cfg, experts, |shards|)
    requires Replies(cfg, shards, experts).Some?
    requires j < |shards| && forall s :: 0 <= s < |qs| ==> qs[s] < Sum(Plan(shards)[j])
    ensures Gather(Returned(cfg, shards, experts)[j], qs) == RepliesAt(cfg, shards, experts, j, qs)
  {
    var returned := Returned(cfg, shards, experts)[j];
    forall s | 0 <= s < |qs|
      ensures Gather(returned, qs)[s] == RepliesAt(cfg, shards, experts, j, qs)[s]
    {
      ReturnedAt(cfg, shards, experts, j, qs[s]);
    }
  }

  /** The entries the program combines into output `(b, t)` of worker `j`:
      for every slot `s`, the entry that has exactly `b·T + t` entries of
      slot `s` before it in send order. Nothing ties this entry to token
      `(b, t)`. */
  function SendRanks<V, P>(cfg: Config<V>, shards: seq<Shard<V, P>>, j: nat, b: nat, t: nat): (qs: seq<nat>)
    requires ValidShards(cfg, shards) && j < |shards| && b < |shards[j].x| && t < cfg.seqLen
    ensures |qs| == cfg.k
    ensures forall s :: 0 <= s < cfg.k ==>
      qs[s] < Sum(Plan(shards)[j]) && Ids(cfg, shards, j)[qs[s]].slot == s &&
      SlotCount(Ids(cfg, shards, j)[..qs[s]], s) == b * cfg.seqLen + t
  {
    var ids := Ids(cfg, shards, j);
    var n := b * cfg.seqLen + t;
    SendShape(cfg, shards, j);
    RowFits(b, |shards[j].x|, cfg.seqLen);
    assert forall s :: 0 <= s < cfg.k ==> n < SlotCount(ids, s);
    Ranks(ids, cfg.k, n)
  }

  /** Output `(b, t)` of worker `j`'s combine as written adds, over the k
      slots, the returned result at the entry of rank `b·T + t` among the
      slot-`s` entries, scaled by that entry's probability. */
  lemma CombinedAt<V, P>(ops: Ops<V, P>, cfg: Config<V>, shards: seq<Shard<V, P>>, j: nat, returned: seq<V>, b: nat, t: nat)
    requires ValidShards(cfg, shards) && j < |shards| && cfg.k >= 1
    requires |returned| == Sum(Plan(shards)[j])
    requires b < |shards[j].x| && t < cfg.seqLen
    ensures var qs := SendRanks(cfg, shards, j, b, t);
      Combined(ops, cfg, shards, j, returned)[b][t] ==
        Fold(ops, ScaleAll(ops, Gather(returned, qs), Gather(Probs(shards, j), qs)))
  {
    SendShape(cfg, shards, j);
    RanksOfSend(cfg, shards, j, b, t);
    CombineAsWrittenAt(ops, returned, Probs(shards, j), Ids(cfg, shards, j), cfg.k, |shards[j].x|, cfg.seqLen, b, t);
  }

  /** `SendRanks` is the rank lookup the combine as written does. */
  lemma RanksOfSend<V, P>(cfg: Config<V>, shards: seq<Shard<V, P>>, j: nat, b: nat, t: nat)
    requires ValidShards(cfg, shards) && j < |shards| && b < |shards[j].x| && t < cfg.seqLen
    requires EvenSlots(Ids(cfg, shards, j), cfg.k, |shards[j].x| * cfg.seqLen)
    ensures b * cfg.seqLen + t < |shards[j].x| * cfg.seqLen
    ensures SendRanks(cfg, shards, j, b, t) == Ranks(Ids(cfg, shards, j), cfg.k, b * cfg.seqLen + t)
  {
    RowFits(b, |shards[j].x|, cfg.seqLen);
  }

  /** End to end, as written: when the forward pass completes, output
      `(b, t)` of worker `j` adds, over the k slots, the reply to the entry
      of rank `b·T + t` among the slot-`s` entries in send order, scaled by
      that entry's own probability. */
  lemma ForwardOutputAt<V(!new), P>(ops: Ops<V, P>, cfg: Config<V>, shards: seq<Shard<V, P>>, experts: seq<Expert<V>>,
                                    j: nat, b: nat, t: nat)
    requires ValidShards(cfg, shards) && ValidExperts(cfg, experts, |shards|)
    requires j < |shards| && b < |shards[j].x| && t < cfg.seqLen
    requires Forward(ops, cfg, shards, experts).Done?
    ensures cfg.k >= 1
    ensures var qs := SendRanks(cfg, shards, j, b, t);
      Forward(ops, cfg, shards, experts).out[j][b][t] ==
        Fold(ops, ScaleAll(ops, RepliesAt(cfg, shards, experts, j, qs), Gather(Probs(shards, j), qs)))
  {
    ForwardDone(ops, cfg, shards, experts);
    var returned := Returned(cfg, shards, experts)[j];
    assert Forward(ops, cfg, shards, experts).out[j] == Combined(ops, cfg, shards, j, returned);
    CombinedAt(ops, cfg, shards, j, returned, b, t);
    ReturnedGather(cfg, shards, experts, j, SendRanks(cfg, shards, j, b, t));
  }

  /** End to end, corrected: when the forward pass completes, output
      `(b, t)` of worker `j` adds, over the k slots, the reply that came
      back for that token's choice in slot `s`, scaled by the router's
      weight for that choice. */
  lemma ForwardCorrectedOutputAt<V(!new), P>(ops: Ops<V, P>, cfg: Config<V>, shards: seq<Shard<V, P>>, experts: seq<Expert<V>>,
                                             j: nat, b: nat, t: nat)
    requires ValidShards(cfg, shards) && ValidExperts(cfg, experts, |shards|)
    requires j < |shards| && b < |shards[j].x| && t < cfg.seqLen
    requires ForwardCorrected(ops, cfg, shards, experts).Done?
    ensures cfg.k >= 1
    ensures ForwardCorrected(ops, cfg, shards, experts).out[j][b][t] ==
      Fold(ops, ScaleAll(ops, RepliesAt(cfg, shards, experts, j, Origins(cfg, shards, j, b, t)), TokenWeights(cfg, shards, j, b, t)))
  {
    ForwardDone(ops, cfg, shards, experts);
    var returned := Returned(cfg, shards, experts)[j];
    assert ForwardCorrected(ops, cfg, shards, experts).out[j] == CombinedCorrected(ops, cfg, shards, j, returned);
    CombinedCorrectedAt(ops, cfg, shards, j, returned, b, t);
    ReturnedGather(cfg, shards, experts, j, Origins(cfg, shards, j, b, t));
  }

  /** Identity preservation: entry `q` of worker `j` goes to the expert its
      choice named, into the batch group of its own global row; if it is
      kept, its batch slot holds its own token and the reply is the
      expert's output at that slot, and if it was cropped the reply is
      `padding_val`. */
  lemma ReplyIdentity<V(!new), P>(cfg: Config<V>, shards: seq<Shard<V, P>>, experts: seq<Expert<V>>, j: nat, q: nat)
    requires ValidShards(cfg, shards) && ValidExperts(cfg, experts, |shards|) && Consistent(cfg, shards)
    requires j < |shards| && q < Sum(Plan(shards)[j])
    ensures var m := Ids(cfg, shards, j)[q];
      BatchOffset(cfg, shards, j) <= m.row && m.row - BatchOffset(cfg, shards, j) < |shards[j].x| &&
      m.pos < cfg.seqLen && m.slot < cfg.k
    ensures var m := Ids(cfg, shards, j)[q];
      var b := m.row - BatchOffset(cfg, shards, j);
      var i := Dest(Plan(shards), j, q).worker;
      var sl := BatchSlot(cfg, shards, j, q);
      var u := UniqueRows(Rows(RecvIds(cfg, shards)[i]));
      i == shards[j].picks[b][m.pos][m.slot].expert &&
      sl.group < |u| && u[sl.group] == m.row &&
      (Kept(cfg, shards, j, q) ==>
        ExpertBatch(cfg, shards, i)[sl.group][sl.index] == shards[j].x[b][m.pos] &&
        Reply(cfg, shards, experts, j, q) == experts[i](ExpertBatch(cfg, shards, i))[sl.group][sl.index]) &&
      (!Kept(cfg, shards, j, q) ==> Reply(cfg, shards, experts, j, q) == cfg.pad)
  {
    Routed(cfg, shards, j, q);
    GroupIsRow(cfg, shards, j, q);
    if Kept(cfg, shards, j, q) {
      BatchedToken(cfg, shards, j, q);
    }
  }
}
