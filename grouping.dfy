/** The expert worker's side of the permutation: group the received records
    by global row (`unique(sorted=True, return_counts=True)` and slicing by
    the cumulative counts), crop or pad every group to `capacity`, and,
    after the expert has run, scatter the real outputs back into a buffer
    that mirrors the receive buffer, padding everywhere else. */
module Grouping {
  import opened Seqs

  predicate NonDecreasing(rows: seq<nat>)
  {
    forall p, q :: 0 <= p <= q < |rows| ==> rows[p] <= rows[q]
  }

  predicate Increasing(u: seq<nat>)
  {
    forall p, q :: 0 <= p < q < |u| ==> u[p] < u[q]
  }

  // ---------------------------------------------------------------------
  // torch.unique(sorted=True, return_counts=True)

  function Insert(u: seq<nat>, x: nat): (r: seq<nat>)
    requires Increasing(u)
    ensures Increasing(r)
    ensures forall v :: v in r <==> v in u || v == x
  {
    if u == [] then [x]
    else if x < u[0] then [x] + u
    else if x == u[0] then u
    else
      var rest := Insert(u[1..], x);
      forall q | 0 <= q < |rest| ensures u[0] < rest[q] {
        assert rest[q] in rest;
      }
      [u[0]] + rest
  }

  /** The distinct values of `rows`, ascending. */
  function UniqueRows(rows: seq<nat>): (u: seq<nat>)
    ensures Increasing(u)
    ensures forall v :: v in u <==> v in rows
  {
    if rows == [] then []
    else
      var n := |rows| - 1;
      assert rows == rows[..n] + [rows[n]];
      Insert(UniqueRows(rows[..n]), rows[n])
  }

  /** How often `v` occurs in `rows`. */
  function Count(rows: seq<nat>, v: nat): nat
  {
    if rows == [] then 0
    else Count(rows[..|rows| - 1], v) + (if rows[|rows| - 1] == v then 1 else 0)
  }

  /** The occurrences of every value of `u` in `rows`: `recv_row_lens`. */
  function RowCounts(rows: seq<nat>, u: seq<nat>): (c: seq<nat>)
    ensures |c| == |u|
  {
    seq(|u|, r requires 0 <= r < |u| => Count(rows, u[r]))
  }

  lemma InsertMember(u: seq<nat>, x: nat)
    requires Increasing(u) && x in u
    ensures Insert(u, x) == u
  {
    if x != u[0] {
      assert x in u[1..];
      InsertMember(u[1..], x);
      assert [u[0]] + u[1..] == u;
    }
  }

  lemma {:induction false} InsertLast(u: seq<nat>, x: nat)
    requires Increasing(u) && forall v :: v in u ==> v < x
    ensures Insert(u, x) == u + [x]
    decreases |u|
  {
    if u != [] {
      assert u[0] in u;
      assert forall v :: v in u[1..] ==> v in u;
      InsertLast(u[1..], x);
      assert [u[0]] + (u[1..] + [x]) == u + [x];
    }
  }

  lemma CountAppend(rows: seq<nat>, x: nat, v: nat)
    ensures Count(rows + [x], v) == Count(rows, v) + (if x == v then 1 else 0)
  {
  }

  lemma {:induction false} CountAbsent(rows: seq<nat>, v: nat)
    requires v !in rows
    ensures Count(rows, v) == 0
    decreases |rows|
  {
    if rows != [] {
      var n := |rows| - 1;
      assert forall w :: w in rows[..n] ==> w in rows;
      CountAbsent(rows[..n], v);
    }
  }

  lemma {:induction false} CountPresent(rows: seq<nat>, v: nat)
    requires v in rows
    ensures Count(rows, v) >= 1
    decreases |rows|
  {
    var n := |rows| - 1;
    if rows[n] != v {
      assert rows == rows[..n] + [rows[n]];
      assert v in rows[..n];
      CountPresent(rows[..n], v);
    }
  }

  /** Every value `unique` returns occurs, whatever the order of the rows:
      `recv_row_lens` has no zero entry. */
  lemma CountsPositive(rows: seq<nat>)
    ensures forall r :: 0 <= r < |UniqueRows(rows)| ==> RowCounts(rows, UniqueRows(rows))[r] >= 1
  {
    var u := UniqueRows(rows);
    forall r | 0 <= r < |u| ensures RowCounts(rows, u)[r] >= 1 {
      assert u[r] in u;
      CountPresent(rows, u[r]);
    }
  }

  /** Raising one count by one raises the total by one. */
  lemma {:induction false} SumBump(c': seq<nat>, c: seq<nat>, m: nat)
    requires |c| == |c'| && m < |c|
    requires forall r :: 0 <= r < |c| ==> c[r] == if r == m then c'[r] + 1 else c'[r]
    ensures Sum(c) == Sum(c') + 1
    decreases |c|
  {
    var n := |c| - 1;
    if m < n {
      SumBump(c'[..n], c[..n], m);
    } else {
      assert c[..n] == c'[..n];
    }
  }

  /** Counting every value of a duplicate-free `u` that covers `rows`
      accounts for every record once: `sum(recv_row_lens)` is the number of
      records received. */
  lemma {:induction false} CountsSum(rows: seq<nat>, u: seq<nat>)
    requires Increasing(u) && forall v :: v in rows ==> v in u
    ensures Sum(RowCounts(rows, u)) == |rows|
    decreases |rows|
  {
    if rows == [] {
      SumConst(RowCounts(rows, u), 0);
    } else {
      var n := |rows| - 1;
      var rs := rows[..n];
      var x := rows[n];
      assert rows == rs + [x];
      assert forall v :: v in rs ==> v in rows;
      CountsSum(rs, u);
      assert x in rows;
      var m :| 0 <= m < |u| && u[m] == x;
      forall r | 0 <= r < |u|
        ensures RowCounts(rows, u)[r] == if r == m then RowCounts(rs, u)[r] + 1 else RowCounts(rs, u)[r]
      {
        CountAppend(rs, x, u[r]);
      }
      SumBump(RowCounts(rs, u), RowCounts(rows, u), m);
    }
  }

  lemma CountsCover(rows: seq<nat>)
    ensures Sum(RowCounts(rows, UniqueRows(rows))) == |rows|
  {
    CountsSum(rows, UniqueRows(rows));
  }

  /** Group `r` holds positions `[Prefix(c, r), Prefix(c, r + 1))` and every
      row id there is `u[r]`. */
  ghost predicate Contiguous(rows: seq<nat>, u: seq<nat>, c: seq<nat>)
    requires |c| == |u|
  {
    Sum(c) == |rows| &&
    (forall r :: 0 <= r < |c| ==> c[r] >= 1) &&
    (forall r, p :: InGroup(c, r, p) ==> p < |rows| && rows[p] == u[r])
  }

  /** Position `p` lies in group `r` of the layout `c`. */
  predicate InGroup(c: seq<nat>, r: int, p: int)
  {
    0 <= r < |c| && 0 <= p && Prefix(c, r) <= p < Prefix(c, r + 1)
  }

  lemma {:induction false} SortedRowsContiguous(rows: seq<nat>)
    requires NonDecreasing(rows)
    ensures Contiguous(rows, UniqueRows(rows), RowCounts(rows, UniqueRows(rows)))
    decreases |rows|
  {
    if rows == [] {
    } else if |rows| == 1 {
      SingleRowContiguous(rows[0]);
      assert rows == [rows[0]];
    } else {
      var n := |rows| - 1;
      var rs := rows[..n];
      assert rows == rs + [rows[n]];
      assert NonDecreasing(rs);
      SortedRowsContiguous(rs);
      if rows[n] == rs[n - 1] {
        ExtendLastGroup(rs, rows[n]);
      } else {
        ExtendNewGroup(rs, rows[n]);
      }
    }
  }

  lemma SingleRowContiguous(x: nat)
    ensures Contiguous([x], UniqueRows([x]), RowCounts([x], UniqueRows([x])))
  {
    assert [x][..0] == [];
    assert UniqueRows([]) == [];
    var u := UniqueRows([x]);
    assert u == [x];
    var c := RowCounts([x], u);
    CountAppend([], x, x);
    assert c == [1];
    assert Sum(c) == 1 by { assert c[..0] == []; }
    PrefixStep(c, 0);
  }

  /** The last value of the distinct rows is the last (largest) row. */
  lemma UniqueLast(rs: seq<nat>)
    requires NonDecreasing(rs) && rs != []
    ensures |UniqueRows(rs)| >= 1 && UniqueRows(rs)[|UniqueRows(rs)| - 1] == rs[|rs| - 1]
  {
    var u := UniqueRows(rs);
    var y := rs[|rs| - 1];
    assert y in u;
    assert u[|u| - 1] in rs;
  }

  lemma UniqueAppend(rs: seq<nat>, x: nat)
    ensures UniqueRows(rs + [x]) == Insert(UniqueRows(rs), x)
  {
  }

  /** A record whose row is `u`'s last value adds one to the last count. */
  lemma CountsBump(rs: seq<nat>, x: nat, u: seq<nat>)
    requires Increasing(u) && |u| >= 1 && u[|u| - 1] == x
    ensures forall r :: 0 <= r < |u| ==>
      RowCounts(rs + [x], u)[r] == if r == |u| - 1 then RowCounts(rs, u)[r] + 1 else RowCounts(rs, u)[r]
  {
    forall r | 0 <= r < |u|
      ensures RowCounts(rs + [x], u)[r] == if r == |u| - 1 then RowCounts(rs, u)[r] + 1 else RowCounts(rs, u)[r]
    {
      CountAppend(rs, x, u[r]);
    }
  }

  /** A record with a new row, above all of `u`, opens a count of one. */
  lemma CountsPush(rs: seq<nat>, x: nat, u: seq<nat>)
    requires x !in rs && x !in u
    ensures RowCounts(rs + [x], u + [x]) == RowCounts(rs, u) + [1]
  {
    var u2 := u + [x];
    forall r | 0 <= r < |u2|
      ensures RowCounts(rs + [x], u2)[r] == if r == |u| then 1 else RowCounts(rs, u)[r]
    {
      CountAppend(rs, x, u2[r]);
      if r == |u| {
        CountAbsent(rs, x);
      }
    }
  }

  /** Adding one record to the last group keeps the groups contiguous. */
  lemma ContiguousBump(rs: seq<nat>, x: nat, u: seq<nat>, c': seq<nat>, c: seq<nat>)
    requires |c'| == |u| >= 1 && u[|u| - 1] == x
    requires Contiguous(rs, u, c')
    requires |c| == |c'| && forall r :: 0 <= r < |c| ==> c[r] == if r == |u| - 1 then c'[r] + 1 else c'[r]
    ensures Contiguous(rs + [x], u, c)
  {
    var m := |u| - 1;
    assert c == c'[m := c'[m] + 1];
    var rows := rs + [x];
    assert forall r :: 0 <= r <= m ==> c[..r] == c'[..r];
    PrefixStep(c, m);
    PrefixStep(c', m);
    PrefixFull(c);
    PrefixFull(c');
    forall r, p | InGroup(c, r, p)
      ensures p < |rows| && rows[p] == u[r]
    {
      if r < m {
        assert c[..r + 1] == c'[..r + 1];
        assert InGroup(c', r, p);
      } else if p < |rs| {
        assert InGroup(c', r, p);
      }
    }
  }

  /** Adding one record as a new last group keeps the groups contiguous. */
  lemma ContiguousPush(rs: seq<nat>, x: nat, u': seq<nat>, c': seq<nat>)
    requires |c'| == |u'|
    requires Contiguous(rs, u', c')
    ensures Contiguous(rs + [x], u' + [x], c' + [1])
  {
    var c := c' + [1];
    var u := u' + [x];
    var m := |u'|;
    var rows := rs + [x];
    assert c[..m] == c';
    forall r | 0 <= r <= m
      ensures Prefix(c, r) == Prefix(c', r)
    {
      PrefixOfPrefix(c, m, r);
    }
    PrefixStep(c, m);
    PrefixFull(c);
    PrefixFull(c');
    forall r, p | InGroup(c, r, p)
      ensures p < |rows| && rows[p] == u[r]
    {
      if r < m {
        assert InGroup(c', r, p);
      }
    }
  }

  /** A row equal to the last one joins the last group. */
  lemma ExtendLastGroup(rs: seq<nat>, x: nat)
    requires NonDecreasing(rs) && rs != [] && x == rs[|rs| - 1]
    requires Contiguous(rs, UniqueRows(rs), RowCounts(rs, UniqueRows(rs)))
    ensures Contiguous(rs + [x], UniqueRows(rs + [x]), RowCounts(rs + [x], UniqueRows(rs + [x])))
  {
    var u := UniqueRows(rs);
    UniqueLast(rs);
    assert x in u by { assert u[|u| - 1] == x; }
    InsertMember(u, x);
    UniqueAppend(rs, x);
    var rows := rs + [x];
    assert UniqueRows(rows) == u;
    var c' := RowCounts(rs, u);
    var c := RowCounts(rows, u);
    CountsBump(rs, x, u);
    ContiguousBump(rs, x, u, c', c);
  }

  /** A row above the last one opens a new group of one. */
  lemma ExtendNewGroup(rs: seq<nat>, x: nat)
    requires NonDecreasing(rs + [x]) && rs != [] && x != rs[|rs| - 1]
    requires Contiguous(rs, UniqueRows(rs), RowCounts(rs, UniqueRows(rs)))
    ensures Contiguous(rs + [x], UniqueRows(rs + [x]), RowCounts(rs + [x], UniqueRows(rs + [x])))
  {
    var rows := rs + [x];
    assert rows[..|rs|] == rs;
    var y := rs[|rs| - 1];
    assert y <= x by { assert rows[|rs| - 1] == y; }
    assert forall v :: v in rs ==> v <= y by {
      forall v | v in rs ensures v <= y {
        var i :| 0 <= i < |rs| && rs[i] == v;
        assert rows[i] == v;
      }
    }
    var u := UniqueRows(rs);
    assert x !in rs;
    assert x !in u;
    InsertLast(u, x);
    UniqueAppend(rs, x);
    CountsPush(rs, x, u);
    ContiguousPush(rs, x, u, RowCounts(rs, u));
  }

  /** When the received row ids never decrease, `unique` with its counts
      describes contiguous groups: the counts are positive and add up to the
      number of records, and the record at position `p` carries the row id
      of the group whose slice holds `p`. This is what makes the slicing of
      `recv_toks` by `recv_row_offsets` group the tokens by row. */
  lemma GroupsAreContiguous(rows: seq<nat>)
    requires NonDecreasing(rows)
    ensures Sum(RowCounts(rows, UniqueRows(rows))) == |rows|
    ensures forall r :: 0 <= r < |UniqueRows(rows)| ==> RowCounts(rows, UniqueRows(rows))[r] >= 1
    ensures forall p :: 0 <= p < |rows| ==> rows[p] == UniqueRows(rows)[Locate(RowCounts(rows, UniqueRows(rows)), p)]
  {
    var u := UniqueRows(rows);
    var c := RowCounts(rows, u);
    SortedRowsContiguous(rows);
    forall p | 0 <= p < |rows|
      ensures rows[p] == u[Locate(c, p)]
    {
      assert InGroup(c, Locate(c, p), p);
    }
  }

  /** The row slices are in order, non-empty, pairwise disjoint and cover
      `[0, |rows|)` exactly: every position lies in the slice `Locate`
      names and in no other. This holds in whatever order the rows
      arrive. */
  lemma RowSlicesPartition(rows: seq<nat>)
    ensures var c := RowCounts(rows, UniqueRows(rows));
      var off := RowOffsets(c);
      |off| == |c| + 1 && off[0] == 0 && off[|c|] == |rows| &&
      (forall r :: 0 <= r < |c| ==> off[r] < off[r + 1]) &&
      Sum(c) == |rows| &&
      (forall p, r :: 0 <= p < |rows| && 0 <= r < |c| ==>
         (off[r] <= p < off[r + 1] <==> r == Locate(c, p)))
  {
    var c := RowCounts(rows, UniqueRows(rows));
    CountsCover(rows);
    CountsPositive(rows);
    RowOffsetsArePrefixSums(c);
    forall r | 0 <= r < |c| ensures Prefix(c, r) < Prefix(c, r + 1) {
      PrefixStep(c, r);
    }
    forall p, r | 0 <= p < |rows| && 0 <= r < |c| && Prefix(c, r) <= p < Prefix(c, r + 1)
      ensures r == Locate(c, p)
    {
      LocateUnique(c, p, r);
    }
  }

  // ---------------------------------------------------------------------
  // Crop or pad to capacity

  /** `pad_fn`: `F.pad(toks, (0, 0, 0, capacity - len))` pads with `pad` when
      the group is short and crops its trailing tokens when it is long. */
  function PadOrCrop<V>(toks: seq<V>, capacity: nat, pad: V): (r: seq<V>)
    ensures |r| == capacity
    ensures forall d :: 0 <= d < capacity ==> r[d] == if d < |toks| then toks[d] else pad
  {
    if capacity <= |toks| then toks[..capacity]
    else toks + seq(capacity - |toks|, _ => pad)
  }

  /** `batch_toks`: every row group as exactly `capacity` tokens. */
  function BatchToks<V>(recvToks: seq<V>, lens: seq<nat>, capacity: nat, pad: V): (batch: seq<seq<V>>)
    ensures |batch| == |lens|
    ensures forall r :: 0 <= r < |lens| ==> |batch[r]| == capacity
  {
    var off := RowOffsets(lens);
    seq(|lens|, r requires 0 <= r < |lens| => PadOrCrop(PySlice(recvToks, off[r], off[r + 1]), capacity, pad))
  }

  /** `batch_row_len`: how many real tokens each padded group holds. */
  function RowLens(lens: seq<nat>, capacity: nat): (rl: seq<nat>)
    ensures |rl| == |lens|
    ensures forall r :: 0 <= r < |lens| ==> rl[r] <= capacity && rl[r] <= lens[r]
    ensures forall r :: 0 <= r < |lens| ==> rl[r] == lens[r] || rl[r] == capacity
  {
    seq(|lens|, r requires 0 <= r < |lens| => if lens[r] <= capacity then lens[r] else capacity)
  }

  /** Each padded group starts with its first `min(len, capacity)` received
      tokens in arrival order, and pads the rest; `batch_row_len` counts
      exactly those real tokens. */
  lemma BatchHoldsGroups<V>(recvToks: seq<V>, lens: seq<nat>, capacity: nat, pad: V, r: nat, d: nat)
    requires Sum(lens) == |recvToks| && r < |lens| && d < capacity
    ensures Prefix(lens, r) + lens[r] <= |recvToks|
    ensures BatchToks(recvToks, lens, capacity, pad)[r][d] ==
      if d < lens[r] then recvToks[Prefix(lens, r) + d] else pad
  {
    RowSlice(recvToks, lens, r);
    var off := RowOffsets(lens);
    var g := PySlice(recvToks, off[r], off[r + 1]);
    GroupPadded(BatchToks(recvToks, lens, capacity, pad), g, capacity, pad, r, d);
  }

  lemma GroupPadded<V>(batch: seq<seq<V>>, g: seq<V>, capacity: nat, pad: V, r: nat, d: nat)
    requires r < |batch| && batch[r] == PadOrCrop(g, capacity, pad) && d < capacity
    ensures batch[r][d] == if d < |g| then g[d] else pad
  {
  }

  /** Slicing `recv_toks` between consecutive row offsets gives group `r`. */
  lemma RowSlice<V>(recvToks: seq<V>, lens: seq<nat>, r: nat)
    requires Sum(lens) == |recvToks| && r < |lens|
    ensures Prefix(lens, r) + lens[r] <= |recvToks|
    ensures var g := PySlice(recvToks, RowOffsets(lens)[r], RowOffsets(lens)[r + 1]);
      |g| == lens[r] && forall d :: 0 <= d < lens[r] ==> g[d] == recvToks[Prefix(lens, r) + d]
  {
    RowOffsetsArePrefixSums(lens);
    PrefixStep(lens, r);
    PrefixBound(lens, r + 1);
  }

  // ---------------------------------------------------------------------
  // Scatter back

  /** A slot of the padded batch: slot `index` of group `group`. */
  datatype Slot = Slot(group: nat, index: nat)

  /** Group by group, the receive-buffer positions of the real tokens:
      `range(recv_row_offsets[r], recv_row_offsets[r] + batch_row_len[r])`. */
  function OffsetBlocks(lens: seq<nat>, rowLen: seq<nat>): (bs: seq<seq<nat>>)
    requires |rowLen| == |lens|
    ensures Lens(bs) == rowLen
    ensures forall r, d :: 0 <= r < |bs| && 0 <= d < |bs[r]| ==> bs[r][d] == Prefix(lens, r) + d
  {
    var off := RowOffsets(lens);
    RowOffsetsArePrefixSums(lens);
    seq(|lens|, r requires 0 <= r < |lens| => Range(off[r], off[r] + rowLen[r]))
  }

  /** Group by group, the batch slots of the real tokens. */
  function SlotBlocks(rowLen: seq<nat>): (bs: seq<seq<Slot>>)
    ensures Lens(bs) == rowLen
    ensures forall r, d :: 0 <= r < |bs| && 0 <= d < |bs[r]| ==> bs[r][d] == Slot(r, d)
  {
    seq(|rowLen|, r requires 0 <= r < |rowLen| => seq(rowLen[r], d requires 0 <= d < rowLen[r] => Slot(r, d)))
  }

  /** `recv_tok_offsets`: the positions of the real tokens, group by group. */
  function RecvTokOffsets(lens: seq<nat>, rowLen: seq<nat>): seq<nat>
    requires |rowLen| == |lens|
  {
    Concat(OffsetBlocks(lens, rowLen))
  }

  /** `batch_tok_offsets`: the batch slot that holds each real token. */
  function BatchTokOffsets(rowLen: seq<nat>): seq<Slot>
  {
    Concat(SlotBlocks(rowLen))
  }

  predicate Distinct(offs: seq<nat>)
  {
    forall q, q' :: 0 <= q < q' < |offs| ==> offs[q] != offs[q']
  }

  /** Entry `q` of the two offset lists: slot `d` of group `r` in the batch,
      and position `Prefix(lens, r) + d` of the receive buffer, which lies in
      group `r`'s slice. */
  lemma PlanAt(lens: seq<nat>, capacity: nat, q: nat)
    requires q < Sum(RowLens(lens, capacity))
    ensures var rowLen := RowLens(lens, capacity);
      var offs := RecvTokOffsets(lens, rowLen);
      var slots := BatchTokOffsets(rowLen);
      |offs| == |slots| == Sum(rowLen) &&
      slots[q].group < |lens| && slots[q].index < rowLen[slots[q].group] &&
      offs[q] == Prefix(lens, slots[q].group) + slots[q].index &&
      Prefix(lens, slots[q].group) <= offs[q] < Prefix(lens, slots[q].group + 1) && offs[q] < Sum(lens)
  {
    var rowLen := RowLens(lens, capacity);
    var ob := OffsetBlocks(lens, rowLen);
    var sb := SlotBlocks(rowLen);
    ConcatLen(ob);
    ConcatLen(sb);
    ConcatLocate(ob, q);
    ConcatLocate(sb, q);
    var r := Locate(rowLen, q);
    PrefixStep(lens, r);
    PrefixBound(lens, r + 1);
  }

  /** The real tokens go to pairwise distinct positions of the receive buffer. */
  lemma PlanDistinct(lens: seq<nat>, capacity: nat)
    ensures Distinct(RecvTokOffsets(lens, RowLens(lens, capacity)))
  {
    var rowLen := RowLens(lens, capacity);
    var offs := RecvTokOffsets(lens, rowLen);
    var slots := BatchTokOffsets(rowLen);
    ConcatLen(OffsetBlocks(lens, rowLen));
    forall q, q' | 0 <= q < q' < |offs|
      ensures offs[q] != offs[q']
    {
      PlanAt(lens, capacity, q);
      PlanAt(lens, capacity, q');
      SlotsDistinct(rowLen, q, q');
      var g, g' := slots[q].group, slots[q'].group;
      LocateUnique(lens, offs[q], g);
      LocateUnique(lens, offs[q'], g');
      if g == g' {
        assert slots[q].index != slots[q'].index;
      }
    }
  }

  /** Different entries of `batch_tok_offsets` name different slots. */
  lemma SlotsDistinct(rowLen: seq<nat>, q: nat, q': nat)
    requires q < q' < Sum(rowLen)
    ensures |BatchTokOffsets(rowLen)| == Sum(rowLen)
    ensures BatchTokOffsets(rowLen)[q] != BatchTokOffsets(rowLen)[q']
  {
    var sb := SlotBlocks(rowLen);
    ConcatLen(sb);
    ConcatLocate(sb, q);
    ConcatLocate(sb, q');
  }

  /** The two offset lists pair up: there are `sum(batch_row_len)` entries,
      the receive positions are distinct, and entry `q` names slot `d` of
      group `r` and position `Prefix(lens, r) + d`, inside group `r`'s slice. */
  lemma ScatterPlan(lens: seq<nat>, capacity: nat)
    ensures var rowLen := RowLens(lens, capacity);
      var offs := RecvTokOffsets(lens, rowLen);
      var slots := BatchTokOffsets(rowLen);
      |offs| == |slots| == Sum(rowLen) && Distinct(offs) &&
      forall q :: 0 <= q < |offs| ==>
        slots[q].group < |lens| && slots[q].index < rowLen[slots[q].group] &&
        offs[q] == Prefix(lens, slots[q].group) + slots[q].index &&
        Prefix(lens, slots[q].group) <= offs[q] < Prefix(lens, slots[q].group + 1) && offs[q] < Sum(lens)
  {
    var rowLen := RowLens(lens, capacity);
    ConcatLen(OffsetBlocks(lens, rowLen));
    ConcatLen(SlotBlocks(rowLen));
    PlanDistinct(lens, capacity);
    forall q | 0 <= q < Sum(rowLen)
      ensures var offs := RecvTokOffsets(lens, rowLen);
        var slots := BatchTokOffsets(rowLen);
        slots[q].group < |lens| && slots[q].index < rowLen[slots[q].group] &&
        offs[q] == Prefix(lens, slots[q].group) + slots[q].index &&
        Prefix(lens, slots[q].group) <= offs[q] < Prefix(lens, slots[q].group + 1) && offs[q] < Sum(lens)
    {
      PlanAt(lens, capacity, q);
    }
  }

  /** `recv_toks[offs] = vals`, one write after another. */
  function Scatter<V>(s: seq<V>, offs: seq<nat>, vals: seq<V>): (r: seq<V>)
    requires |offs| == |vals| && forall q :: 0 <= q < |offs| ==> offs[q] < |s|
    ensures |r| == |s|
    decreases |offs|
  {
    if offs == [] then s
    else
      var n := |offs| - 1;
      Scatter(s, offs[..n], vals[..n])[offs[n] := vals[n]]
  }

  /** With distinct positions, every listed position gets its value and
      every other position keeps the old one. */
  lemma {:induction false} ScatterAt<V>(s: seq<V>, offs: seq<nat>, vals: seq<V>)
    requires |offs| == |vals| && forall q :: 0 <= q < |offs| ==> offs[q] < |s|
    requires Distinct(offs)
    ensures forall q :: 0 <= q < |offs| ==> Scatter(s, offs, vals)[offs[q]] == vals[q]
    ensures forall p :: 0 <= p < |s| && p !in offs ==> Scatter(s, offs, vals)[p] == s[p]
    decreases |offs|
  {
    if offs != [] {
      var n := |offs| - 1;
      var front := offs[..n];
      var prev := Scatter(s, front, vals[..n]);
      assert Distinct(front);
      ScatterAt(s, front, vals[..n]);
      assert Scatter(s, offs, vals) == prev[offs[n] := vals[n]];
      forall q | 0 <= q < |offs|
        ensures Scatter(s, offs, vals)[offs[q]] == vals[q]
      {
        if q < n {
          assert front[q] == offs[q] && offs[q] != offs[n];
        }
      }
      forall p | 0 <= p < |s| && p !in offs
        ensures Scatter(s, offs, vals)[p] == s[p]
      {
        assert p != offs[n];
      }
    }
  }

  /** The expert output has the shape of the padded batch. */
  predicate Rect<V>(out: seq<seq<V>>, rows: nat, capacity: nat)
  {
    |out| == rows && forall r :: 0 <= r < rows ==> |out[r]| == capacity
  }

  /** The expert outputs at the batch slots:
      `batch_toks[batch_tok_offsets[0], batch_tok_offsets[1]]`. */
  function Picked<V>(out: seq<seq<V>>, slots: seq<Slot>): (vals: seq<V>)
    requires forall q :: 0 <= q < |slots| ==> slots[q].group < |out| && slots[q].index < |out[slots[q].group]|
    ensures |vals| == |slots|
  {
    seq(|slots|, q requires 0 <= q < |slots| => out[slots[q].group][slots[q].index])
  }

  /** `fill_(v)`: `n` copies of `v`. */
  function Filled<V>(n: nat, v: V): (r: seq<V>)
    ensures |r| == n && forall i :: 0 <= i < n ==> r[i] == v
  {
    seq(n, _ => v)
  }

  /** `recv_toks` after the reset to padding and the scatter of the real
      outputs: the buffer that the reverse exchange sends home. */
  function BackBuffer<V>(size: nat, lens: seq<nat>, capacity: nat, pad: V, out: seq<seq<V>>): (back: seq<V>)
    requires Sum(lens) == size && Rect(out, |lens|, capacity)
    ensures |back| == size
  {
    var rowLen := RowLens(lens, capacity);
    ScatterPlan(lens, capacity);
    Scatter(Filled(size, pad), RecvTokOffsets(lens, rowLen), Picked(out, BatchTokOffsets(rowLen)))
  }

  /** A position within capacity of its group is listed: it is entry
      `Prefix(rowLen, r) + d` of the offsets, paired with slot `(r, d)`. */
  lemma ListedAt(lens: seq<nat>, capacity: nat, r: nat, d: nat)
    requires r < |lens| && d < lens[r] && d < capacity
    ensures var rowLen := RowLens(lens, capacity);
      var q := Prefix(rowLen, r) + d;
      q < |RecvTokOffsets(lens, rowLen)| && q < |BatchTokOffsets(rowLen)| &&
      RecvTokOffsets(lens, rowLen)[q] == Prefix(lens, r) + d &&
      BatchTokOffsets(rowLen)[q] == Slot(r, d)
  {
    var rowLen := RowLens(lens, capacity);
    ListedOffset(lens, rowLen, r, d);
    ListedSlot(rowLen, r, d);
  }

  lemma ListedOffset(lens: seq<nat>, rowLen: seq<nat>, r: nat, d: nat)
    requires |rowLen| == |lens| && r < |lens| && d < rowLen[r]
    ensures Prefix(rowLen, r) + d < |RecvTokOffsets(lens, rowLen)|
    ensures RecvTokOffsets(lens, rowLen)[Prefix(rowLen, r) + d] == Prefix(lens, r) + d
  {
    var ob := OffsetBlocks(lens, rowLen);
    assert Lens(ob)[r] == |ob[r]|;
    ConcatAt(ob, r, d);
  }

  lemma ListedSlot(rowLen: seq<nat>, r: nat, d: nat)
    requires r < |rowLen| && d < rowLen[r]
    ensures Prefix(rowLen, r) + d < |BatchTokOffsets(rowLen)|
    ensures BatchTokOffsets(rowLen)[Prefix(rowLen, r) + d] == Slot(r, d)
  {
    var sb := SlotBlocks(rowLen);
    assert Lens(sb)[r] == |sb[r]|;
    ConcatAt(sb, r, d);
  }

  /** The buffer that goes home holds the expert's output at every listed
      position and padding everywhere else. */
  lemma BackBufferScatter<V>(size: nat, lens: seq<nat>, capacity: nat, pad: V, out: seq<seq<V>>)
    requires Sum(lens) == size && Rect(out, |lens|, capacity)
    ensures var rowLen := RowLens(lens, capacity);
      var offs := RecvTokOffsets(lens, rowLen);
      var slots := BatchTokOffsets(rowLen);
      var back := BackBuffer(size, lens, capacity, pad, out);
      |offs| == |slots| &&
      (forall q :: 0 <= q < |offs| ==>
         offs[q] < size && slots[q].group < |out| && slots[q].index < capacity &&
         back[offs[q]] == out[slots[q].group][slots[q].index]) &&
      (forall p :: 0 <= p < size && p !in offs ==> back[p] == pad)
  {
    var rowLen := RowLens(lens, capacity);
    ScatterPlan(lens, capacity);
    var offs := RecvTokOffsets(lens, rowLen);
    var slots := BatchTokOffsets(rowLen);
    var vals := Picked(out, slots);
    var back := BackBuffer(size, lens, capacity, pad, out);
    assert back == Scatter(Filled(size, pad), offs, vals);
    ScatterAt(Filled(size, pad), offs, vals);
    forall q | 0 <= q < |offs|
      ensures offs[q] < size && slots[q].group < |out| && slots[q].index < capacity
      ensures back[offs[q]] == out[slots[q].group][slots[q].index]
    {
      assert back[offs[q]] == vals[q];
    }
  }

  /** Position `p` of the buffer that goes home holds the expert's output
      for the token received at `p` when that token was within capacity of
      its group, and padding when it was cropped: truncated tokens return
      padding, and nothing lands outside its own group's slice. */
  lemma BackBufferAt<V>(size: nat, lens: seq<nat>, capacity: nat, pad: V, out: seq<seq<V>>, p: nat)
    requires Sum(lens) == size && Rect(out, |lens|, capacity) && p < size
    ensures Locate(lens, p) < |out|
    ensures var r := Locate(lens, p);
      var d := p - Prefix(lens, r);
      d < lens[r] &&
      BackBuffer(size, lens, capacity, pad, out)[p] == if d < capacity then out[r][d] else pad
  {
    var r := Locate(lens, p);
    var d := p - Prefix(lens, r);
    PrefixStep(lens, r);
    assert d < lens[r];
    BackBufferSlot(size, lens, capacity, pad, out, r, d, p);
  }

  /** `BackBufferAt`, addressed by group and depth: entry `d` of group `r`
      goes home as the expert's output at `(r, d)` within capacity, and as
      padding beyond it. */
  lemma BackBufferSlot<V>(size: nat, lens: seq<nat>, capacity: nat, pad: V, out: seq<seq<V>>, r: nat, d: nat, p: nat)
    requires Sum(lens) == size && Rect(out, |lens|, capacity) && r < |lens| && d < lens[r] && p == Prefix(lens, r) + d
    ensures p < size
    ensures BackBuffer(size, lens, capacity, pad, out)[p] == if d < capacity then out[r][d] else pad
  {
    PrefixStep(lens, r);
    PrefixBound(lens, r + 1);
    if d < capacity {
      BackBufferKept(size, lens, capacity, pad, out, r, d, p);
    } else {
      BackBufferCropped(size, lens, capacity, pad, out, r, d, p);
    }
  }

  /** Entry `d < capacity` of group `r` goes home as the expert's output at
      `(r, d)`. */
  lemma BackBufferKept<V>(size: nat, lens: seq<nat>, capacity: nat, pad: V, out: seq<seq<V>>, r: nat, d: nat, p: nat)
    requires Sum(lens) == size && Rect(out, |lens|, capacity) && r < |lens| && d < lens[r] && p == Prefix(lens, r) + d
    requires d < capacity && p < size
    ensures BackBuffer(size, lens, capacity, pad, out)[p] == out[r][d]
  {
    ListedAt(lens, capacity, r, d);
    BackBufferScatter(size, lens, capacity, pad, out);
  }

  /** Entry `d >= capacity` of group `r` goes home as padding. */
  lemma BackBufferCropped<V>(size: nat, lens: seq<nat>, capacity: nat, pad: V, out: seq<seq<V>>, r: nat, d: nat, p: nat)
    requires Sum(lens) == size && Rect(out, |lens|, capacity) && r < |lens| && d < lens[r] && p == Prefix(lens, r) + d
    requires d >= capacity && p < size
    ensures BackBuffer(size, lens, capacity, pad, out)[p] == pad
  {
    PrefixStep(lens, r);
    LocateUnique(lens, p, r);
    CroppedUnlisted(lens, capacity, p);
    BackBufferScatter(size, lens, capacity, pad, out);
  }

  /** A position past capacity in its group is not among `recv_tok_offsets`. */
  lemma CroppedUnlisted(lens: seq<nat>, capacity: nat, p: nat)
    requires p < Sum(lens) && p - Prefix(lens, Locate(lens, p)) >= capacity
    ensures p !in RecvTokOffsets(lens, RowLens(lens, capacity))
  {
    var rowLen := RowLens(lens, capacity);
    var offs := RecvTokOffsets(lens, rowLen);
    var slots := BatchTokOffsets(rowLen);
    ConcatLen(OffsetBlocks(lens, rowLen));
    forall q | 0 <= q < |offs|
      ensures offs[q] != p
    {
      PlanAt(lens, capacity, q);
      var g := slots[q].group;
      if offs[q] == p {
        LocateUnique(lens, p, g);
      }
    }
  }

  /** `fill_`: reset a buffer to padding. */
  method Fill<V>(a: array<V>, v: V)
    modifies a
    ensures a[..] == Filled(a.Length, v)
  {
    var p := 0;
    while p < a.Length
      invariant 0 <= p <= a.Length
      invariant forall i :: 0 <= i < p ==> a[i] == v
    {
      a[p] := v;
      p := p + 1;
    }
  }

  /** `a[offs] = vals`, in place. */
  method ScatterInto<V>(a: array<V>, offs: seq<nat>, vals: seq<V>)
    requires |offs| == |vals| && forall q :: 0 <= q < |offs| ==> offs[q] < a.Length
    modifies a
    ensures a[..] == Scatter(old(a[..]), offs, vals)
  {
    var q := 0;
    while q < |offs|
      invariant 0 <= q <= |offs|
      invariant a[..] == Scatter(old(a[..]), offs[..q], vals[..q])
    {
      assert offs[..q + 1][..q] == offs[..q];
      assert vals[..q + 1][..q] == vals[..q];
      a[offs[q]] := vals[q];
      q := q + 1;
    }
    assert offs[..q] == offs;
    assert vals[..q] == vals;
  }

  /** The un-permutation on the expert worker: reset `recv_toks` to padding,
      then write the expert's real outputs at `recv_tok_offsets`. */
  method Unpermute<V>(recvToks: array<V>, lens: seq<nat>, capacity: nat, pad: V, out: seq<seq<V>>)
    requires Sum(lens) == recvToks.Length && Rect(out, |lens|, capacity)
    modifies recvToks
    ensures recvToks[..] == BackBuffer(recvToks.Length, lens, capacity, pad, out)
  {
    Fill(recvToks, pad);
    var rowLen := RowLens(lens, capacity);
    ScatterPlan(lens, capacity);
    var offs := RecvTokOffsets(lens, rowLen);
    var vals := Picked(out, BatchTokOffsets(rowLen));
    ScatterInto(recvToks, offs, vals);
  }
}
