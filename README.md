# Mixture-of-Experts routing core, in Dafny

This project models the routing bookkeeping of `MoE.forward` in
`assets/Mixture-of-Experts/moe_torch.py`. There is one worker process per
expert. Each worker holds a B_j × T shard of tokens and the router's top-k
choices for those tokens. The forward pass:

1. works out every worker's first global row (`batch_inits`);
2. groups the top-k choices by destination expert (`ids_per_expert`,
   `probs_per_expert`) and counts them (`send_count`);
3. exchanges the counts, the metadata records (global row, position, slot)
   and the tokens with all-to-all collectives;
4. groups the received records by global row (`unique`, `recv_row_offsets`);
5. crops or pads each row group to `capacity` tokens and runs the expert;
6. scatters the real outputs back into a buffer that mirrors the receive
   buffer;
7. exchanges that buffer back with the counts swapped, then scales the
   results by the router probabilities and sums the k slots.

The collectives (`dist.all_gather`, `dist.all_to_all`,
`dist.all_to_all_single`) are pure functions over the buffers of all
workers at once. Receiver `i`'s buffer is the concatenation, in sender-rank
order, of the block each sender earmarked for `i`. One function,
`MoE.Forward`, therefore computes every worker's output from every worker's
input, with the combine as lines 111-115 write it. `MoE.ForwardCorrected`
is the same pass with the combine those lines evidently intend, which adds
each token's own k results (see "## Findings").

Modules:

- `Seqs` (seqs.dfy): sums, prefix sums, concatenation of blocks,
  `Locate` (the block that holds a position), `cumsum`, `batch_inits`.
- `Exchange` (exchange.dfy): the all-to-all as a transpose of blocks.
  Covers where each sent item lands, the round trip with swapped counts,
  the count exchange, and the receiving side as a method over an array.
- `Routing` (routing.dfy): one worker's side of the permutation.
  `nonzero()` is a row-major walk of the top-k tensor. Also covers the
  grouping by expert, the send counts, `send_ids` / `send_toks` / the
  probabilities in one shared order, and the in-place row-id shift.
- `Grouping` (grouping.dfy): the expert worker's side. Covers
  `unique(sorted=True, return_counts=True)`, the row slices, crop/pad,
  `batch_row_len`, the scatter plan (`recv_tok_offsets`,
  `batch_tok_offsets`), and the reset-and-scatter methods.
- `Combine` (combine.dfy): scaling by the probabilities (also in place),
  the per-slot selection and sum for k > 1, the reshape, the combine as
  written, and the corrected combine by origin coordinates.
- `MoE` (moe.dfy): configuration, the whole forward pass across workers
  (as written and corrected), and the end-to-end lemmas.

Feature vectors are an abstract type `V`: a whole C-wide token moves as
one unit. Router probabilities are an abstract type `P`. The combiner's
multiply and add are parameters (`Combine.Ops`). The expert on each worker
is an opaque function on its Rows × capacity batch that keeps its shape.

## Model

| member | source | states |
|---|---|---|
| `Seqs.BatchInits` | assets/Mixture-of-Experts/moe_torch.py:58 | `np.cumsum([0] + sizes)` has one entry per worker plus a final one. |
| `Seqs.BatchInitsArePrefixSums` | assets/Mixture-of-Experts/moe_torch.py:54-58 | `batch_inits` starts at 0 and ends at the global batch size. Entry j is the total batch of workers before j. Consecutive entries differ by worker j's batch size. |
| `Seqs.UniformInitsAgree` | assets/Mixture-of-Experts/moe_torch.py:52-58 | When every worker has batch size B, the `drop_last` vector `[i*B]` equals the all-gather-and-cumsum vector. |
| `Seqs.RowOffsetsArePrefixSums` | assets/Mixture-of-Experts/moe_torch.py:90 | `recv_row_offsets` is `[0]` followed by the running totals of the group lengths, and it ends at their sum. |
| `Seqs.SegmentOfConcat` | assets/Mixture-of-Experts/moe_torch.py:76 | Cutting `torch.cat` of blocks along the blocks' lengths gives each block back. |
| `Exchange.AllToAll` | assets/Mixture-of-Experts/moe_torch.py:79 | Each receive buffer holds exactly the sum of what every sender addressed to it, i.e. the transposed counts. |
| `Exchange.AllToAllAt` | assets/Mixture-of-Experts/moe_torch.py:79 | Item d of the block sender j earmarked for i arrives at j's offset in i's buffer plus d. |
| `Exchange.ForwardAt` | assets/Mixture-of-Experts/moe_torch.py:85 | Item q of sender j's buffer arrives intact at `Dest(counts, j, q)`. |
| `Exchange.DestInjective` | assets/Mixture-of-Experts/moe_torch.py:79 | No two sent items land in the same place. |
| `Exchange.DestOnto` | assets/Mixture-of-Experts/moe_torch.py:79 | Every place of every receive buffer is filled by some sent item. |
| `Exchange.TransposeTwice` | assets/Mixture-of-Experts/moe_torch.py:108 | Swapping send and receive counts twice gives the original plan. |
| `Exchange.ReverseAt` | assets/Mixture-of-Experts/moe_torch.py:108 | The reverse exchange with swapped counts fills position q of origin j from `Dest(counts, j, q)`, whatever the repliers put there. |
| `Exchange.RoundTrip` | assets/Mixture-of-Experts/moe_torch.py:108 | Exchanging forward with the send counts and back with the receive counts returns every buffer unchanged. |
| `Exchange.CountExchangeTransposes` | assets/Mixture-of-Experts/moe_torch.py:69-71 | After the count exchange, `recv_count[j]` on worker i equals `send_count[i]` on worker j. |
| `Exchange.ReceiveInto` | assets/Mixture-of-Experts/moe_torch.py:78-79 | Filling the preallocated receive array sender by sender leaves exactly the all-to-all result in it. |
| `Exchange.CopyBlock` | assets/Mixture-of-Experts/moe_torch.py:79 | One sender's block is copied to its place in the receive array; every other entry is unchanged. |
| `Routing.Cells` | assets/Mixture-of-Experts/moe_torch.py:65 | The row-major `nonzero()` walk of the top-k tensor. It has no contract of its own; its properties are `Routing.CellsAreRowMajor` and `Routing.CellsCount`. |
| `Routing.CellsAreRowMajor` | assets/Mixture-of-Experts/moe_torch.py:65 | The `nonzero()` walk lists every (row, position, slot) exactly once, in strictly row-major order, each with the choice stored there. |
| `Routing.CellsCount` | assets/Mixture-of-Experts/moe_torch.py:62 | A B×T×k top-k tensor has B·T·k choices. |
| `Routing.ForExpert` | assets/Mixture-of-Experts/moe_torch.py:65-66 | `ids_per_expert[e]` (with `probs_per_expert[e]`) filters the walk, so it is never longer than the walk. `Routing.ForExpertFacts` states what it keeps. |
| `Routing.ForExpertFacts` | assets/Mixture-of-Experts/moe_torch.py:65 | `ids_per_expert[e]` holds exactly the choices naming e, and keeps them in row-major order. |
| `Routing.GroupedPermutes` | assets/Mixture-of-Experts/moe_torch.py:76 | Concatenating the per-expert lists rearranges all the choices: nothing is lost or duplicated. |
| `Routing.GroupedAt` | assets/Mixture-of-Experts/moe_torch.py:65-76 | Entry q of the send order names the expert whose send block holds q. |
| `Routing.CountConservation` | assets/Mixture-of-Experts/moe_torch.py:65-69 | `send_count` sums to B·T·k, and `send_ids` and the probabilities have that length. |
| `Routing.SendBlocks` | assets/Mixture-of-Experts/moe_torch.py:65-77 | `send_count[e]` equals the length of `ids_per_expert[e]`. Block e of `send_ids` is `ids_per_expert[e]` with global rows. |
| `Routing.SendIds` | assets/Mixture-of-Experts/moe_torch.py:76-77 | `send_ids` has one entry per unit of `send_count`. |
| `Routing.SendProbs` | assets/Mixture-of-Experts/moe_torch.py:112 | `torch.concatenate(probs_per_expert)` has one entry per unit of `send_count`. |
| `Routing.SendLengths` | assets/Mixture-of-Experts/moe_torch.py:75-76 | `send_ids` and the probabilities have one entry per unit of `send_count`. |
| `Routing.SendToks` | assets/Mixture-of-Experts/moe_torch.py:83 | `send_toks` has one token per sent choice. |
| `Routing.SendAligned` | assets/Mixture-of-Experts/moe_torch.py:65-83 | Entry q of `send_ids`, `send_toks` and the concatenated probabilities all belong to the same (row, position, slot). That choice named the expert of the block holding q. |
| `Routing.SendBlockRows` | assets/Mixture-of-Experts/moe_torch.py:65-77 | Within any expert's block, global rows lie in [offset, offset + B) and never decrease. |
| `Routing.SendIdsComplete` | assets/Mixture-of-Experts/moe_torch.py:65-77 | Every (row + offset, position, slot) of the worker's choices is among `send_ids`. |
| `Routing.SendIdsNoDup` | assets/Mixture-of-Experts/moe_torch.py:65-77 | No coordinate appears twice in `send_ids`. |
| `Routing.ShiftRowIds` | assets/Mixture-of-Experts/moe_torch.py:77 | The in-place `send_ids[:,0] += offset` shifts every row and changes nothing else. |
| `Routing.SendSlotCount` | assets/Mixture-of-Experts/moe_torch.py:113-114 | Every top-k slot occurs B·T times in `send_ids`, so the per-slot slices have equal length and can be stacked. |
| `Grouping.UniqueRows` | assets/Mixture-of-Experts/moe_torch.py:89 | `unique(sorted=True)` returns strictly increasing values, exactly those that occur. |
| `Grouping.CountsCover` | assets/Mixture-of-Experts/moe_torch.py:89 | The `return_counts` lengths add up to the number of records received. |
| `Grouping.CountsPositive` | assets/Mixture-of-Experts/moe_torch.py:89 | Every count `unique` returns is at least one, for received rows in any order. |
| `Grouping.GroupsAreContiguous` | assets/Mixture-of-Experts/moe_torch.py:89-91 | For non-decreasing rows, every count is positive and the counts sum to the record count. The record at p carries the row of the group whose slice holds p. |
| `Grouping.RowSlicesPartition` | assets/Mixture-of-Experts/moe_torch.py:89-91 | The slices `recv_row_slice(r)` are non-empty and in order. They start at 0 and end at the total, and each position lies in exactly one of them, for received rows in any order. |
| `Grouping.PadOrCrop` | assets/Mixture-of-Experts/moe_torch.py:95 | `pad_fn` yields exactly `capacity` tokens: the group's first ones, then `padding_val`. |
| `Grouping.BatchToks` | assets/Mixture-of-Experts/moe_torch.py:96 | `batch_toks` has one row per group, each of exactly `capacity` tokens. |
| `Grouping.BatchHoldsGroups` | assets/Mixture-of-Experts/moe_torch.py:94-96 | Slot d of group r is received token `offset_r + d` while d < len_r, and `padding_val` after that. |
| `Grouping.RowLens` | assets/Mixture-of-Experts/moe_torch.py:100 | `batch_row_len[r]` is at most `capacity`, at most `len_r`, and equal to one of them. |
| `Grouping.ScatterPlan` | assets/Mixture-of-Experts/moe_torch.py:105-106 | `recv_tok_offsets` has `sum(batch_row_len)` distinct entries. Entry q is slot (r, d) of the batch and position `offset_r + d`, inside row r's slice. |
| `Grouping.CroppedUnlisted` | assets/Mixture-of-Experts/moe_torch.py:105 | A position at or past `capacity` in its group is not in `recv_tok_offsets`. |
| `Grouping.ScatterAt` | assets/Mixture-of-Experts/moe_torch.py:107 | With distinct positions, every listed position gets its value and every other keeps its old one. |
| `Grouping.BackBuffer` | assets/Mixture-of-Experts/moe_torch.py:103-107 | The reset-and-scattered `recv_toks` keeps the receive buffer's size. |
| `Grouping.BackBufferScatter` | assets/Mixture-of-Experts/moe_torch.py:103-107 | The reset-and-scattered `recv_toks` holds the expert output at every listed position and `padding_val` elsewhere. |
| `Grouping.BackBufferAt` | assets/Mixture-of-Experts/moe_torch.py:103-107 | Position p of the buffer sent home holds the expert's output for the token received at p if it was within capacity. Otherwise it holds `padding_val`. |
| `Grouping.Fill` | assets/Mixture-of-Experts/moe_torch.py:103-104 | `fill_` sets every entry to the padding value. |
| `Grouping.ScatterInto` | assets/Mixture-of-Experts/moe_torch.py:107 | The in-place `recv_toks[offs] = vals` leaves the array equal to `Scatter` of its old contents. |
| `Grouping.Unpermute` | assets/Mixture-of-Experts/moe_torch.py:103-107 | The reset and scatter on the expert worker produce exactly the back buffer. |
| `Combine.ScaleInPlace` | assets/Mixture-of-Experts/moe_torch.py:112 | `x *= probs` scales row q by probability q and changes nothing else. |
| `Combine.SelectSlot` | assets/Mixture-of-Experts/moe_torch.py:114 | `x[send_ids[:,-1] == s]` has one row per occurrence of slot s. |
| `Combine.SlotPositions` | assets/Mixture-of-Experts/moe_torch.py:114 | The positions with slot s, strictly ascending, all of them. |
| `Combine.SelectSlotAt` | assets/Mixture-of-Experts/moe_torch.py:114 | Selecting a slot is a stable filter: its n-th row is the row at the n-th position with that slot. |
| `Combine.SumSlotsAt` | assets/Mixture-of-Experts/moe_torch.py:113-114 | Row q of the stacked sum adds, over the slots, the row at the q-th position of each slot. |
| `Combine.ViewAt` | assets/Mixture-of-Experts/moe_torch.py:115 | `view(B, T, C)` moves nothing: entry (i, j) is flat entry i·T + j. |
| `Combine.CombineAsWritten` | assets/Mixture-of-Experts/moe_torch.py:111-115 | Lines 111-115 as written give a B × T result. It needs every slot to occur B·T times, which `torch.stack` demands. |
| `Combine.Ranks` | assets/Mixture-of-Experts/moe_torch.py:114 | For each slot s, the position in send order with slot s and exactly n earlier positions of slot s. |
| `Combine.SlotRanks` | assets/Mixture-of-Experts/moe_torch.py:114 | The n-th position of slot s has exactly n positions of slot s before it. |
| `Combine.CombineAsWrittenAt` | assets/Mixture-of-Experts/moe_torch.py:111-115 | As written, output (i, j) adds over the slots s the row at rank i·T + j among slot s's positions in expert-major send order, scaled by the probability at that same position. |
| `Combine.CrossedSendOrder` | assets/Mixture-of-Experts/moe_torch.py:65-76 | Concrete instance: with token 0 sent to expert 1 and token 1 to expert 0, token 1 leaves first. |
| `Combine.AsWrittenMisplaces` | assets/Mixture-of-Experts/moe_torch.py:111-115 | On that instance, output (0, 0) as written is token 1's scaled result (50). Token 0's own result is 60. |
| `Combine.ByOriginAt` | assets/Mixture-of-Experts/moe_torch.py:111-114 | Combined by coordinates, output (i, j) adds the scaled results sent from (offset + i, j, s) for s = 0..k-1. |
| `Combine.ByOriginScaled` | assets/Mixture-of-Experts/moe_torch.py:111-114 | The same, with each result multiplied by the weight at its own entry. |
| `MoE.BatchOffset` | assets/Mixture-of-Experts/moe_torch.py:52-58 | `batch_inits[global_rank]`: `j·B` under `drop_last`, the all-gathered prefix sum otherwise. It has no contract of its own; `MoE.OffsetsArePrefixSums` states its meaning. |
| `MoE.OffsetsArePrefixSums` | assets/Mixture-of-Experts/moe_torch.py:52-58 | On either branch, worker j's first global row is the total batch of the workers before it. |
| `MoE.RecvCounts` | assets/Mixture-of-Experts/moe_torch.py:69-86 | `recv_count` from the count exchange is the transposed plan. It sizes `recv_ids` and `recv_toks` exactly. |
| `MoE.Routed` | assets/Mixture-of-Experts/moe_torch.py:65-85 | Send entry q names a real token. It reaches the expert its choice named, with its own metadata and its own token, and its probability is that choice's weight. |
| `MoE.RecvRowsSorted` | assets/Mixture-of-Experts/moe_torch.py:77-91 | The received row-id column never decreases, which is what the slicing by `unique` counts relies on. |
| `MoE.GroupIsRow` | assets/Mixture-of-Experts/moe_torch.py:89-91 | The batch group an entry lands in is the group `unique` made for its global row. |
| `MoE.BatchedToken` | assets/Mixture-of-Experts/moe_torch.py:94-96 | A kept entry's slot in its expert's batch holds its own token. |
| `MoE.ExpertStep` | assets/Mixture-of-Experts/moe_torch.py:89-107 | An expert worker returns a back buffer the size of its receive buffer exactly when it received something. |
| `MoE.Replies` | assets/Mixture-of-Experts/moe_torch.py:89-107 | The expert workers' replies exist exactly when every worker received something, and they fit the swapped plan. |
| `MoE.Forward` | assets/Mixture-of-Experts/moe_torch.py:49-115 | The pass as written fails exactly when some expert receives nothing. Otherwise every worker gets a B_j × T output. |
| `MoE.ForwardCorrected` | assets/Mixture-of-Experts/moe_torch.py:49-114 | The pass with the corrected combine: the same failure condition and output shapes. |
| `MoE.ForwardDone` | assets/Mixture-of-Experts/moe_torch.py:108-115 | A completed pass, as written or corrected, is the reverse exchange and combine of the replies, there are k >= 1 slots, and the corrected pass completes too (`MoE.CorrectedDone` gives the converse). |
| `MoE.CorrectedDone` | assets/Mixture-of-Experts/moe_torch.py:96-115 | If the corrected pass completes, so does the pass as written: both fail exactly when some expert receives nothing. |
| `MoE.SendShape` | assets/Mixture-of-Experts/moe_torch.py:111-114 | Worker j sends B_j·T·k entries, B_j·T per slot, which is what `view` and `torch.stack` need. |
| `MoE.Combined` | assets/Mixture-of-Experts/moe_torch.py:111-115 | Worker j's combine as written gives a B_j × T output. |
| `MoE.CombinedCorrected` | assets/Mixture-of-Experts/moe_torch.py:111-114 | Worker j's combine by coordinates gives a B_j × T output. |
| `MoE.Outputs` | assets/Mixture-of-Experts/moe_torch.py:108-115 | Reverse exchange then combine as written gives every worker a B_j × T output. |
| `MoE.OutputsCorrected` | assets/Mixture-of-Experts/moe_torch.py:108-114 | Reverse exchange then corrected combine gives every worker a B_j × T output. |
| `MoE.Reply` | assets/Mixture-of-Experts/moe_torch.py:99-107 | The reply for entry q: the expert's output at its batch slot if kept, `padding_val` if cropped. It has no contract of its own; `MoE.ReplyIdentity` states what it is. |
| `MoE.Returned` | assets/Mixture-of-Experts/moe_torch.py:108 | The reverse exchange gives worker j exactly one entry per unit of its `send_count`. |
| `MoE.ReturnedGather` | assets/Mixture-of-Experts/moe_torch.py:108 | Read at any entries, the returned buffer holds those entries' replies. |
| `MoE.SendRanks` | assets/Mixture-of-Experts/moe_torch.py:113-115 | The entries combined into output (b, t) as written: for each slot s, the entry of slot s with exactly b·T + t slot-s entries before it in send order. |
| `MoE.CombinedAt` | assets/Mixture-of-Experts/moe_torch.py:111-115 | Output (b, t) of the combine as written adds, over the slots, the returned result at `SendRanks` scaled by the probability at that entry. |
| `MoE.CombinedCorrectedAt` | assets/Mixture-of-Experts/moe_torch.py:111-114 | Output (b, t) of the corrected combine adds, over the slots, the returned result of token (b, t)'s slot-s choice scaled by that choice's weight. |
| `MoE.ReturnedAt` | assets/Mixture-of-Experts/moe_torch.py:103-108 | After the reverse exchange, entry q of `send_toks` is the reply for the choice sent from there: the expert's output if kept, `padding_val` if cropped. |
| `MoE.ReplyIdentity` | assets/Mixture-of-Experts/moe_torch.py:65-108 | An entry goes to its chosen expert, into its own row's group. If kept, its slot holds its own token and the reply is the expert output there; if cropped, the reply is `padding_val`. |
| `MoE.NoChoicesNoTraffic` | assets/Mixture-of-Experts/moe_torch.py:65-71 | With k = 0 nothing is sent, so no worker receives anything. |
| `MoE.ForwardOutputAt` | assets/Mixture-of-Experts/moe_torch.py:108-115 | When the pass as written completes, output (b, t) of worker j sums, over the k slots, the reply to the entry of rank b·T + t among the slot-s entries in send order, times that entry's own probability. That entry need not be token (b, t)'s. |
| `MoE.ForwardCorrectedOutputAt` | assets/Mixture-of-Experts/moe_torch.py:108-114 | When the corrected pass completes, output (b, t) of worker j sums, over the k slots, the reply for that token's slot-s choice times the router's weight for it. |

## Left out

- Process bootstrap is left out, because it is environment and framework plumbing. That covers environment variables, `init_process_group`, devices and DDP wrapping (:22-26, :46, :127-137).
- The real NCCL collectives are not modelled: blocking, lockstep ordering and hangs on a mismatched peer. Each collective is a pure function over all workers' buffers. Only the receiving side of `all_to_all_single` is also written as a method (`Exchange.ReceiveInto`).
- The router network, softmax and `torch.topk` (:40-45, :61-62) are floating-point library code. Their output is an input of the model: per token, k (expert, weight) pairs with expert ids below the world size. That the k experts are distinct is not needed by any property here, so it is not assumed.
- The `FeedForward` expert (:47, :99) is an opaque function on the Rows × capacity batch. It is assumed to keep that shape.
- `capacity = int(T / num_experts * capacity_factor)` (:94) is float arithmetic. `capacity` is a natural-number field of the configuration, so `capacity_factor` does not appear.
- Feature vectors are whole units of an abstract type. The flattening to `counts × C` scalars (:79, :85, :108) is modelled as moving `counts` tokens, and likewise for `M` metadata columns. The multiply and add are abstract operations, not floating point.
- The sequence length T is one configuration value shared by every worker. The batch size may differ per worker unless `drop_last` is set.
- Under `drop_last`, the forward pass itself asks only for well-shaped inputs. The lemmas that rely on sorted received rows (`MoE.RecvRowsSorted` and those using it) also require equal batch sizes, which is the promise that flag makes.
- An expert that receives no token fails (`Outcome.Failed`). This follows the code: with no received rows, `torch.stack` of an empty list at :96 and `np.concatenate` of an empty list at :105 both raise.
- The training loop, dataset, loss and optimizer (:118-153) are outside the routing core.
- Integer widths are unbounded: the int64 counts and offsets of the source cannot overflow at realistic sizes.

## Findings

| source | as written | input that shows it | evidently intended | confidence | as-written member | corrected member |
|---|---|---|---|---|---|---|
| assets/Mixture-of-Experts/moe_torch.py:111-115 | `send_toks` comes back in expert-major send order. For k > 1 the q-th rows of each slot are summed. `view(B,T,C)` then reads the buffer as if it were in (row, position) order. | Worker 0 of two workers, so two experts (one per worker, :38); on worker 0, B = 1, T = 2, k = 1. Worker 1's routing reaches worker 0's output only through the replies, which this input fixes. Token 0 chooses expert 1 with weight 3 and token 1 chooses expert 0 with weight 5. The replies are 20 for token 0 and 10 for token 1. Output (0, 0) as written is 10·5 = 50; token 0's own result is 20·3 = 60. | Output (b, t) is the sum over slots s of the result for (b, t, s) times its weight. The comment at :113 says the sum is over the k probabilities of each input. `MoE` replaces the per-token `FeedForward` at :137, so output (b, t) must belong to input (b, t). | not executed; derived by proof | `Combine.AsWrittenMisplaces`, `MoE.ForwardOutputAt` | `Combine.CombineByOrigin`, `MoE.ForwardCorrectedOutputAt` |

`MoE.Forward` uses the combine as written (`MoE.Combined`, built on
`Combine.CombineAsWritten`). `MoE.ForwardOutputAt` states what it returns
for each token. `MoE.ForwardCorrected` uses the corrected combine
(`MoE.CombinedCorrected`, built on `Combine.CombineByOrigin`).
`MoE.ForwardCorrectedOutputAt` proves each output is the weighted sum of
that token's own k replies.
