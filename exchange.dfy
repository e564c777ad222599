/** The collectives of the forward pass, modelled as pure functions over the
    buffers of all workers at once. Worker `j`'s send buffer is laid out in
    blocks by its counts `counts[j]`: block `i` is what it earmarks for
    worker `i`. `all_to_all_single` hands receiver `i` the concatenation, in
    sender-rank order, of block `i` of every sender. */
module Exchange {
  import opened Seqs

  /** `counts[j][i]` is the number of items worker `j` sends to worker `i`;
      every worker has one count per peer. */
  predicate IsPlan(counts: seq<seq<nat>>)
  {
    forall j :: 0 <= j < |counts| ==> |counts[j]| == |counts|
  }

  /** Every send buffer holds exactly what its counts announce. */
  predicate Fits<V>(bufs: seq<seq<V>>, counts: seq<seq<nat>>)
  {
    IsPlan(counts) && |bufs| == |counts| &&
    forall j :: 0 <= j < |bufs| ==> |bufs[j]| == Sum(counts[j])
  }

  /** What worker `i` receives from each peer: column `i` of the plan. */
  function Column(counts: seq<seq<nat>>, i: nat): seq<nat>
    requires IsPlan(counts) && i < |counts|
  {
    seq(|counts|, j requires 0 <= j < |counts| => counts[j][i])
  }

  /** The plan seen from the receivers: `recv_count` on every worker. */
  function Transpose(counts: seq<seq<nat>>): (t: seq<seq<nat>>)
    requires IsPlan(counts)
    ensures IsPlan(t) && |t| == |counts|
  {
    seq(|counts|, i requires 0 <= i < |counts| => Column(counts, i))
  }

  lemma TransposeTwice(counts: seq<seq<nat>>)
    requires IsPlan(counts)
    ensures Transpose(Transpose(counts)) == counts
  {
    var t := Transpose(Transpose(counts));
    forall j | 0 <= j < |counts|
      ensures t[j] == counts[j]
    {
    }
  }

  /** The blocks addressed to worker `i`, in the ranks of their senders. */
  function Inbox<V>(bufs: seq<seq<V>>, counts: seq<seq<nat>>, i: nat): (blocks: seq<seq<V>>)
    requires Fits(bufs, counts) && i < |counts|
    ensures Lens(blocks) == Column(counts, i)
    ensures |Concat(blocks)| == Sum(Column(counts, i))
  {
    var blocks := seq(|bufs|, j requires 0 <= j < |bufs| => Segment(bufs[j], counts[j], i));
    assert Lens(blocks) == Column(counts, i);
    ConcatLen(blocks);
    blocks
  }

  /** `all_to_all_single` with split sizes `counts` on every worker at once. */
  function AllToAll<V>(bufs: seq<seq<V>>, counts: seq<seq<nat>>): (recv: seq<seq<V>>)
    requires Fits(bufs, counts)
    ensures Fits(recv, Transpose(counts))
    ensures forall i :: 0 <= i < |recv| ==> |recv[i]| == Sum(Column(counts, i))
  {
    seq(|bufs|, i requires 0 <= i < |bufs| => Concat(Inbox(bufs, counts, i)))
  }

  /** Item `d` of the block sender `j` earmarked for `i` arrives at the start
      of `j`'s part of `i`'s receive buffer plus `d`. */
  lemma AllToAllAt<V>(bufs: seq<seq<V>>, counts: seq<seq<nat>>, i: nat, j: nat, d: nat)
    requires Fits(bufs, counts) && i < |counts| && j < |counts| && d < counts[j][i]
    ensures Prefix(counts[j], i) + d < |bufs[j]|
    ensures Prefix(Column(counts, i), j) + d < |AllToAll(bufs, counts)[i]|
    ensures AllToAll(bufs, counts)[i][Prefix(Column(counts, i), j) + d] == bufs[j][Prefix(counts[j], i) + d]
  {
    var blocks := Inbox(bufs, counts, i);
    ConcatAt(blocks, j, d);
  }

  /** A position in a receive buffer, or in a send buffer. */
  datatype Place = Place(worker: nat, index: nat)

  /** Where item `q` of worker `j`'s send buffer lands after the exchange. */
  function Dest(counts: seq<seq<nat>>, j: nat, q: nat): (at: Place)
    requires IsPlan(counts) && j < |counts| && q < Sum(counts[j])
    ensures at.worker < |counts| && at.index < Sum(Column(counts, at.worker))
  {
    var i := Locate(counts[j], q);
    var d := q - Prefix(counts[j], i);
    PrefixStep(counts[j], i);
    PrefixStep(Column(counts, i), j);
    PrefixBound(Column(counts, i), j + 1);
    Place(i, Prefix(Column(counts, i), j) + d)
  }

  /** The forward exchange moves item `q` of sender `j` to `Dest(counts, j, q)`. */
  lemma ForwardAt<V>(bufs: seq<seq<V>>, counts: seq<seq<nat>>, j: nat, q: nat)
    requires Fits(bufs, counts) && j < |bufs| && q < |bufs[j]|
    ensures Dest(counts, j, q).index < |AllToAll(bufs, counts)[Dest(counts, j, q).worker]|
    ensures AllToAll(bufs, counts)[Dest(counts, j, q).worker][Dest(counts, j, q).index] == bufs[j][q]
  {
    var i := Locate(counts[j], q);
    PrefixStep(counts[j], i);
    AllToAllAt(bufs, counts, i, j, q - Prefix(counts[j], i));
  }

  /** The reverse exchange, with the counts swapped, fills position `q` of
      worker `j`'s buffer from `Dest(counts, j, q)`, whatever the repliers
      put there: every position of the origin buffer is written, from
      exactly this place. */
  lemma ReverseAt<V>(replies: seq<seq<V>>, counts: seq<seq<nat>>, j: nat, q: nat)
    requires IsPlan(counts) && Fits(replies, Transpose(counts))
    requires j < |counts| && q < Sum(counts[j])
    ensures |AllToAll(replies, Transpose(counts))[j]| == Sum(counts[j])
    ensures AllToAll(replies, Transpose(counts))[j][q] == replies[Dest(counts, j, q).worker][Dest(counts, j, q).index]
  {
    var t := Transpose(counts);
    TransposeTwice(counts);
    assert Column(t, j) == counts[j];
    var i := Locate(counts[j], q);
    var d := q - Prefix(counts[j], i);
    PrefixStep(counts[j], i);
    AllToAllAt(replies, t, j, i, d);
  }

  /** Round trip: exchanging forward with the send counts and back with the
      receive counts returns every item to the position it was sent from. */
  lemma RoundTrip<V>(bufs: seq<seq<V>>, counts: seq<seq<nat>>)
    requires Fits(bufs, counts)
    ensures AllToAll(AllToAll(bufs, counts), Transpose(counts)) == bufs
  {
    var back := AllToAll(AllToAll(bufs, counts), Transpose(counts));
    forall j | 0 <= j < |bufs|
      ensures back[j] == bufs[j]
    {
      RoundTripAt(bufs, counts, j);
    }
  }

  lemma RoundTripAt<V>(bufs: seq<seq<V>>, counts: seq<seq<nat>>, j: nat)
    requires Fits(bufs, counts) && j < |bufs|
    ensures AllToAll(AllToAll(bufs, counts), Transpose(counts))[j] == bufs[j]
  {
    var fwd := AllToAll(bufs, counts);
    var back := AllToAll(fwd, Transpose(counts));
    TransposeTwice(counts);
    forall q | 0 <= q < |bufs[j]|
      ensures back[j][q] == bufs[j][q]
    {
      ReverseAt(fwd, counts, j, q);
      ForwardAt(bufs, counts, j, q);
    }
  }

  /** No two sent items land in the same place. */
  lemma DestInjective(counts: seq<seq<nat>>, j: nat, q: nat, j': nat, q': nat)
    requires IsPlan(counts) && j < |counts| && q < Sum(counts[j])
    requires j' < |counts| && q' < Sum(counts[j'])
    requires Dest(counts, j, q) == Dest(counts, j', q')
    ensures j == j' && q == q'
  {
    var i := Locate(counts[j], q);
    var d := q - Prefix(counts[j], i);
    var d' := q' - Prefix(counts[j'], i);
    var col := Column(counts, i);
    PrefixStep(counts[j], i);
    PrefixStep(counts[j'], i);
    PrefixStep(col, j);
    PrefixStep(col, j');
    var p := Dest(counts, j, q).index;
    LocateUnique(col, p, j);
    LocateUnique(col, p, j');
  }

  /** Every place of every receive buffer is the destination of some sent item. */
  lemma DestOnto(counts: seq<seq<nat>>, i: nat, p: nat) returns (j: nat, q: nat)
    requires IsPlan(counts) && i < |counts| && p < Sum(Column(counts, i))
    ensures j < |counts| && q < Sum(counts[j]) && Dest(counts, j, q) == Place(i, p)
  {
    var col := Column(counts, i);
    j := Locate(col, p);
    var d := p - Prefix(col, j);
    PrefixStep(col, j);
    PrefixStep(counts[j], i);
    PrefixBound(counts[j], i + 1);
    q := Prefix(counts[j], i) + d;
    LocateUnique(counts[j], q, i);
  }

  /** One unit per peer: the layout of the count exchange. */
  function Units(n: nat): (counts: seq<seq<nat>>)
    ensures IsPlan(counts) && |counts| == n
  {
    seq(n, j => seq(n, i => 1))
  }

  lemma UnitsFit(sendCounts: seq<seq<nat>>)
    requires IsPlan(sendCounts)
    ensures Fits(sendCounts, Units(|sendCounts|))
  {
    var units := Units(|sendCounts|);
    forall j | 0 <= j < |sendCounts|
      ensures Sum(units[j]) == |sendCounts|
    {
      SumConst(units[j], 1);
    }
  }

  /** `dist.all_to_all(recv_count, send_count)`: every worker sends one count
      to every peer. */
  function CountExchange(sendCounts: seq<seq<nat>>): seq<seq<nat>>
    requires IsPlan(sendCounts)
  {
    UnitsFit(sendCounts);
    AllToAll(sendCounts, Units(|sendCounts|))
  }

  /** After the count exchange, `recv_count[j]` on worker `i` is
      `send_count[i]` on worker `j`. */
  lemma CountExchangeTransposes(sendCounts: seq<seq<nat>>)
    requires IsPlan(sendCounts)
    ensures CountExchange(sendCounts) == Transpose(sendCounts)
  {
    var n := |sendCounts|;
    var units := Units(n);
    UnitsFit(sendCounts);
    var recv := CountExchange(sendCounts);
    forall i | 0 <= i < n
      ensures recv[i] == Transpose(sendCounts)[i]
    {
      SumConst(Column(units, i), 1);
      forall j | 0 <= j < n
        ensures recv[i][j] == sendCounts[j][i]
      {
        SumConst(units[j][..i], 1);
        SumConst(Column(units, i)[..j], 1);
        AllToAllAt(sendCounts, units, i, j, 0);
      }
    }
  }

  /** Receiver `i`'s side of `all_to_all_single`: fill the preallocated
      receive buffer, one sender after another. */
  method ReceiveInto<V>(recv: array<V>, bufs: seq<seq<V>>, counts: seq<seq<nat>>, i: nat)
    requires Fits(bufs, counts) && i < |counts|
    requires recv.Length == Sum(Column(counts, i))
    modifies recv
    ensures recv[..] == AllToAll(bufs, counts)[i]
  {
    ghost var target := AllToAll(bufs, counts)[i];
    ghost var col := Column(counts, i);
    var j := 0;
    while j < |bufs|
      invariant 0 <= j <= |bufs|
      invariant Prefix(col, j) <= recv.Length
      invariant forall p :: 0 <= p < Prefix(col, j) ==> recv[p] == target[p]
    {
      PrefixStep(col, j);
      PrefixBound(col, j + 1);
      ReceiveBlock(recv, bufs, counts, i, j);
      j := j + 1;
    }
    PrefixFull(col);
    ghost var got := recv[..];
    assert forall p :: 0 <= p < |got| ==> got[p] == recv[p];
    Pointwise(got, target);
  }

  /** Copies the block sender `j` earmarked for `i` to `j`'s part of `i`'s
      receive buffer, leaving the rest of the buffer alone. */
  method ReceiveBlock<V>(recv: array<V>, bufs: seq<seq<V>>, counts: seq<seq<nat>>, i: nat, j: nat)
    requires Fits(bufs, counts) && i < |counts| && j < |counts|
    requires recv.Length == Sum(Column(counts, i))
    modifies recv
    ensures forall p :: 0 <= p < recv.Length ==>
      recv[p] == if Prefix(Column(counts, i), j) <= p < Prefix(Column(counts, i), j + 1) then AllToAll(bufs, counts)[i][p] else old(recv[p])
  {
    ghost var col := Column(counts, i);
    ghost var target := AllToAll(bufs, counts)[i];
    PrefixStep(col, j);
    PrefixBound(col, j + 1);
    var pos := Prefix(Column(counts, i), j);
    var start := Prefix(counts[j], i);
    var n := counts[j][i];
    PrefixStep(counts[j], i);
    PrefixBound(counts[j], i + 1);
    assert col[j] == n && Prefix(col, j + 1) == pos + n;
    CopyBlock(recv, pos, bufs[j], start, n);
    forall p | 0 <= p < recv.Length
      ensures recv[p] == if pos <= p < pos + n then target[p] else old(recv[p])
    {
      if pos <= p < pos + n {
        AllToAllAt(bufs, counts, i, j, p - pos);
      }
    }
  }

  /** Two sequences that agree everywhere are equal. */
  lemma Pointwise<V>(a: seq<V>, b: seq<V>)
    requires |a| == |b| && forall p :: 0 <= p < |a| ==> a[p] == b[p]
    ensures a == b
  {
  }

  /** `dst[at:at + n] = src[from:from + n]`, leaving the rest of `dst` alone. */
  method CopyBlock<V>(dst: array<V>, at: nat, src: seq<V>, from: nat, n: nat)
    requires at + n <= dst.Length && from + n <= |src|
    modifies dst
    ensures forall p :: 0 <= p < dst.Length ==> dst[p] == if at <= p < at + n then src[from + p - at] else old(dst[p])
  {
    var t := 0;
    while t < n
      invariant 0 <= t <= n
      invariant forall p :: 0 <= p < dst.Length ==> dst[p] == if at <= p < at + t then src[from + p - at] else old(dst[p])
    {
      dst[at + t] := src[from + t];
      t := t + 1;
    }
  }
}
