/** Prefix sums, concatenation of blocks and block lookup: the index
    arithmetic that every stage of the routing core is built from. */
module Seqs {

  /** Sum of a sequence of counts. */
  function Sum(s: seq<nat>): nat
  {
    if s == [] then 0 else Sum(s[..|s| - 1]) + s[|s| - 1]
  }

  /** Sum of the first `i` counts: where block `i` starts when blocks of
      these sizes are laid out one after another. */
  function Prefix(s: seq<nat>, i: nat): nat
    requires i <= |s|
  {
    Sum(s[..i])
  }

  lemma PrefixStep(s: seq<nat>, i: nat)
    requires i < |s|
    ensures Prefix(s, i + 1) == Prefix(s, i) + s[i]
  {
    assert s[..i + 1][..i] == s[..i];
  }

  lemma PrefixFull(s: seq<nat>)
    ensures Prefix(s, |s|) == Sum(s)
  {
    assert s[..|s|] == s;
  }

  lemma PrefixOfPrefix(s: seq<nat>, n: nat, i: nat)
    requires i <= n <= |s|
    ensures Prefix(s[..n], i) == Prefix(s, i)
  {
    assert s[..n][..i] == s[..i];
  }

  lemma {:induction false} PrefixMono(s: seq<nat>, i: nat, j: nat)
    requires i <= j <= |s|
    ensures Prefix(s, i) <= Prefix(s, j)
    decreases j - i
  {
    if i < j {
      PrefixMono(s, i, j - 1);
      PrefixStep(s, j - 1);
    }
  }

  /** Every block boundary lies within the total. */
  lemma PrefixBound(s: seq<nat>, i: nat)
    requires i <= |s|
    ensures Prefix(s, i) <= Sum(s)
  {
    PrefixMono(s, i, |s|);
    PrefixFull(s);
  }

  lemma {:induction false} SumCons(x: nat, s: seq<nat>)
    ensures Sum([x] + s) == x + Sum(s)
    decreases |s|
  {
    if s != [] {
      var n := |s| - 1;
      assert ([x] + s)[..|[x] + s| - 1] == [x] + s[..n];
      SumCons(x, s[..n]);
    }
  }

  lemma {:induction false} SumConst(s: seq<nat>, b: nat)
    requires forall j :: 0 <= j < |s| ==> s[j] == b
    ensures Sum(s) == |s| * b
    decreases |s|
  {
    if s != [] {
      SumConst(s[..|s| - 1], b);
    }
  }

  /** The block of the layout `lens` that holds position `p`. */
  function Locate(lens: seq<nat>, p: nat): (r: nat)
    requires p < Sum(lens)
    ensures r < |lens| && Prefix(lens, r) <= p < Prefix(lens, r + 1)
    decreases |lens|
  {
    var n := |lens| - 1;
    PrefixFull(lens);
    PrefixStep(lens, n);
    if p >= Prefix(lens, n) then n
    else
      PrefixFull(lens[..n]);
      PrefixOfPrefix(lens, n, n);
      var r := Locate(lens[..n], p);
      PrefixOfPrefix(lens, n, r);
      PrefixOfPrefix(lens, n, r + 1);
      r
  }

  /** A position lies in exactly one block. */
  lemma LocateUnique(lens: seq<nat>, p: nat, r: nat)
    requires r < |lens| && Prefix(lens, r) <= p < Prefix(lens, r + 1)
    ensures p < Sum(lens) && Locate(lens, p) == r
  {
    PrefixBound(lens, r + 1);
    var r' := Locate(lens, p);
    if r' < r {
      PrefixMono(lens, r' + 1, r);
    } else if r < r' {
      PrefixMono(lens, r + 1, r');
    }
  }

  /** The sizes of a sequence of blocks. */
  function Lens<T>(bs: seq<seq<T>>): seq<nat>
  {
    seq(|bs|, i requires 0 <= i < |bs| => |bs[i]|)
  }

  /** The blocks laid out one after another (`torch.cat`, `np.concatenate`). */
  function Concat<T>(bs: seq<seq<T>>): seq<T>
  {
    if bs == [] then [] else Concat(bs[..|bs| - 1]) + bs[|bs| - 1]
  }

  lemma {:induction false} ConcatLen<T>(bs: seq<seq<T>>)
    ensures |Concat(bs)| == Sum(Lens(bs))
    decreases |bs|
  {
    if bs != [] {
      var n := |bs| - 1;
      assert Lens(bs[..n]) == Lens(bs)[..n];
      ConcatLen(bs[..n]);
    }
  }

  /** Element `d` of block `r` sits at the block's start plus `d`. */
  lemma {:induction false} ConcatAt<T>(bs: seq<seq<T>>, r: nat, d: nat)
    requires r < |bs| && d < |bs[r]|
    ensures |Concat(bs)| == Sum(Lens(bs))
    ensures Prefix(Lens(bs), r) + d < |Concat(bs)|
    ensures Concat(bs)[Prefix(Lens(bs), r) + d] == bs[r][d]
    decreases |bs|
  {
    ConcatLen(bs);
    var n := |bs| - 1;
    assert Lens(bs[..n]) == Lens(bs)[..n];
    ConcatLen(bs[..n]);
    PrefixFull(Lens(bs[..n]));
    if r < n {
      ConcatAt(bs[..n], r, d);
      PrefixOfPrefix(Lens(bs), n, r);
    }
    PrefixStep(Lens(bs), r);
    PrefixBound(Lens(bs), r + 1);
  }

  /** Every position of a concatenation belongs to the block `Locate` names. */
  lemma ConcatLocate<T>(bs: seq<seq<T>>, q: nat)
    requires q < |Concat(bs)|
    ensures q < Sum(Lens(bs))
    ensures Locate(Lens(bs), q) < |bs|
    ensures q - Prefix(Lens(bs), Locate(Lens(bs), q)) < |bs[Locate(Lens(bs), q)]|
    ensures Concat(bs)[q] == bs[Locate(Lens(bs), q)][q - Prefix(Lens(bs), Locate(Lens(bs), q))]
  {
    ConcatLen(bs);
    var r := Locate(Lens(bs), q);
    PrefixStep(Lens(bs), r);
    ConcatAt(bs, r, q - Prefix(Lens(bs), r));
  }

  /** The part of a buffer laid out by `counts` that belongs to block `i`. */
  function Segment<T>(buf: seq<T>, counts: seq<nat>, i: nat): (seg: seq<T>)
    requires |buf| == Sum(counts) && i < |counts|
    ensures |seg| == counts[i]
    ensures forall d :: 0 <= d < counts[i] ==> Prefix(counts, i) + d < |buf| && seg[d] == buf[Prefix(counts, i) + d]
  {
    PrefixStep(counts, i);
    PrefixBound(counts, i + 1);
    buf[Prefix(counts, i)..Prefix(counts, i + 1)]
  }

  /** Cutting a concatenation along the sizes of its blocks gives the blocks back. */
  lemma SegmentOfConcat<T>(bs: seq<seq<T>>, i: nat)
    requires i < |bs|
    ensures |Concat(bs)| == Sum(Lens(bs))
    ensures Segment(Concat(bs), Lens(bs), i) == bs[i]
  {
    ConcatLen(bs);
    var seg := Segment(Concat(bs), Lens(bs), i);
    forall d | 0 <= d < |bs[i]|
      ensures seg[d] == bs[i][d]
    {
      ConcatAt(bs, i, d);
    }
  }

  /** Python's `range(lo, hi)`. */
  function Range(lo: nat, hi: nat): (r: seq<nat>)
    ensures |r| == if lo <= hi then hi - lo else 0
  {
    if lo <= hi then seq(hi - lo, d requires 0 <= d < hi - lo => lo + d) else []
  }

  /** Python slicing `s[lo:hi]` for non-negative bounds: clipped to the sequence. */
  function PySlice<T>(s: seq<T>, lo: nat, hi: nat): seq<T>
  {
    var a := if lo <= |s| then lo else |s|;
    var b := if hi <= |s| then hi else |s|;
    if a <= b then s[a..b] else []
  }

  /** `np.cumsum` / `torch.cumsum`: running totals. */
  function CumSum(s: seq<nat>): seq<nat>
  {
    seq(|s|, i requires 0 <= i < |s| => Sum(s[..i + 1]))
  }

  /** `np.cumsum([0] + sizes)`: the first global row of every worker's batch. */
  function BatchInits(sizes: seq<nat>): (r: seq<nat>)
    ensures |r| == |sizes| + 1
  {
    CumSum([0] + sizes)
  }

  /** `[i * B for i in range(n + 1)]`: first rows when every batch has size `b`. */
  function UniformInits(n: nat, b: nat): (r: seq<nat>)
  {
    seq(n + 1, i requires 0 <= i < n + 1 => i * b)
  }

  /** `[0] + cumsum(lens)`: where each group of `lens` starts. */
  function RowOffsets(lens: seq<nat>): (r: seq<nat>)
  {
    [0] + CumSum(lens)
  }

  /** Entry `j` of `batch_inits` is the total batch of the workers before `j`. */
  lemma BatchInitsAt(sizes: seq<nat>, j: nat)
    requires j <= |sizes|
    ensures BatchInits(sizes)[j] == Prefix(sizes, j)
  {
    assert ([0] + sizes)[..j + 1] == [0] + sizes[..j];
    SumCons(0, sizes[..j]);
  }

  /** `batch_inits` is a prefix sum: it starts at 0, its last entry is the
      global batch, and consecutive entries differ by one worker's batch size. */
  lemma BatchInitsArePrefixSums(sizes: seq<nat>)
    ensures BatchInits(sizes)[0] == 0
    ensures BatchInits(sizes)[|sizes|] == Sum(sizes)
    ensures forall j :: 0 <= j <= |sizes| ==> BatchInits(sizes)[j] == Prefix(sizes, j)
    ensures forall j :: 0 <= j < |sizes| ==> BatchInits(sizes)[j + 1] == BatchInits(sizes)[j] + sizes[j]
  {
    forall j | 0 <= j <= |sizes|
      ensures BatchInits(sizes)[j] == Prefix(sizes, j)
    {
      BatchInitsAt(sizes, j);
    }
    PrefixFull(sizes);
    forall j | 0 <= j < |sizes|
      ensures BatchInits(sizes)[j + 1] == BatchInits(sizes)[j] + sizes[j]
    {
      PrefixStep(sizes, j);
    }
  }

  /** When every worker has batch size `b`, the `drop_last` branch and the
      all-gather-and-cumsum branch compute the same vector. */
  lemma UniformInitsAgree(sizes: seq<nat>, b: nat)
    requires forall j :: 0 <= j < |sizes| ==> sizes[j] == b
    ensures BatchInits(sizes) == UniformInits(|sizes|, b)
  {
    BatchInitsArePrefixSums(sizes);
    forall j | 0 <= j <= |sizes|
      ensures BatchInits(sizes)[j] == j * b
    {
      SumConst(sizes[..j], b);
    }
  }

  /** `recv_row_offsets` starts at 0, grows by each group's count and ends at the total. */
  lemma RowOffsetsArePrefixSums(lens: seq<nat>)
    ensures |RowOffsets(lens)| == |lens| + 1
    ensures forall i :: 0 <= i <= |lens| ==> RowOffsets(lens)[i] == Prefix(lens, i)
    ensures RowOffsets(lens)[|lens|] == Sum(lens)
  {
    PrefixFull(lens);
  }
}
