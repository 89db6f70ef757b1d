# cbasis in Dafny

Models of seven components of cbasis, a collection of single-header C libraries, with proofs of what they promise:
the closing protocol of the ticket channel (`channel.h`), the LZ4 block compressor and its two-phase decompressor
(`slz4.h`), the TLSF allocator (`allocator_tlsf.h`), the sorts and the binary search (`sort.h`), the open-addressing
hash table (`hash.h`), the growing single-producer queue (`spmc_queue.h`) and the scratch arena (`scratch.h`).

`dafny verify dfyconfig.toml` checks the whole project.

## How the models are built

- **Channel** (`Channel*.dfy`) and **queue** (`Spmc*.dfy`) are step machines: any number of threads, one atomic load,
  store, fetch-and-add, compare-exchange or item copy per step, in every order, sequentially consistent. Tickets and
  positions are unbounded. Ghost histories record what was stored and taken, and the theorems speak about every run.
- **LZ4** (`Lz4*.dfy`) has a format layer (the careful decoder and the two phases together as functions on byte
  sequences, the encoder as a function on tokens, after the LZ4 Block Format Description) and imperative methods over
  byte arrays that are proved equal to it. Sizes and the decoder's bounds checks are 32-bit words that wrap around, as
  in the source. An access outside a buffer, undefined in C, is an explicit outcome.
- **TLSF** (`Tlsf*.dfy`) keeps the node array, bin heads, mask bits and counters of the source as fields; ghost
  sequences say which nodes each list visits. `TlsfPlacement.Ok` is the invariant behind `tlsf_test_consistency`.
- **Sorts** (`Sort*.dfy`) work in place on arrays, for every strict weak order. Items are integers standing for item
  contents; the order is an arbitrary function.
- **Hash table** (`Hash*.dfy`) and **arena** (`ScratchArena.dfy`) are classes whose methods are proved against the
  multiset of entries and the set of live blocks they stand for.

Where the code and its comments differ, the code is followed: a `max_capacity` of zero in `spmc_queue.h` allows no
block at all although line 62 says it means no limit (see `SpmcLimit.OnlyZeroRefusesAll`), and the limit bounds a
rounded-up capacity (see `SpmcLimit.LimitHolds`).

Some promises hold only under a condition. Each has its exact condition and an input that fails without it:

- The decompressor relies on sizes not wrapping around and on the output being as long as the input is. On streams the
  careful loop accepts, the fast phase is right if and only if runs of 255 bytes are shorter than 16843008 or the output
  is smaller than 65585 (`Lz4Limits.AcceptedAgree`); on rejected ones only the output size helps (`Lz4Limits.AllAgree`).
  `Lz4Limits.CarefulStays` and `Lz4Limits.DecompressorStays` say exactly when the careful loop and the whole
  decompressor stay inside their buffers.
- The compressor's table works whatever memory the caller provides if and only if its two exponents are below 32
  together; otherwise the 32-bit number of slots is zero and clearing the table does nothing (`Lz4Shape.ShapesThatWork`).
- Every input of a length comes back from compression and decompression if and only if the length as plain literals is
  within the decompressor's limit (`Lz4Worst.LengthsThatReturn`).
- Rehashing into another table, removing by index and the queue's limit have theirs in `HashMap.Hash.CopyRehash`,
  `HashMap.BuryOnlyEntries` and `SpmcLimit.LimitHolds`.

## Model

| member | source | states |
|---|---|---|
| ChannelTheorems.EveryRunSafe | channel.h:248-716 | every state of every run with any number of pushes, pops, tries, soft closes and push closes satisfies the invariant |
| ChannelSteps.OpStep | channel.h:316-566 | every atomic step of a push, pop, try push or try pop keeps the invariant over shared fields, all threads' locals, ticket ownership and back-off counts |
| ChannelCloseSteps.CloseStep | channel.h:568-716 | every atomic step of a closer keeps it, in both the CAS-head and the CAS-tail branch |
| ChannelTheorems.BarrierSafety | channel.h:279-408 | nothing is stored at or past the tail barrier or taken at or past the head barrier, and an operation is turned away only if its ticket is at or past its barrier |
| ChannelTheorems.BarriersAreFinal | channel.h:632-702 | a published barrier never changes and a recorded item never changes, whatever steps follow |
| ChannelTheorems.FifoAndExclusion | channel.h:316-470 | the pop with ticket t returns what the push with ticket t stored; below the barriers tickets are unique; two threads past their id checks own different slots |
| ChannelTheorems.AtMostCapacity | channel.h:248-277 | at most capacity items are stored and not taken |
| ChannelTheorems.TryCasStillReady | channel.h:472-566 | when the CAS of a try operation is about to succeed, its slot is still ready for its ticket and no barrier covers it |
| ChannelTheorems.CloseConvergence | channel.h:280-304 | after a close each counter exceeds its barrier by exactly the operations that have not backed off yet, and 0 <= tail barrier - head barrier <= capacity |
| ChannelTheorems.QuiescentConverged | channel.h:734-797 | with all threads idle the source's consistency test passes and the slots from head to tail hold exactly the items stored and not taken, in order |
| ChannelTheorems.PushNotStranded | channel.h:306-377 | below a published tail barrier an unfinished push always has an operation at or before it whose owner finds its slot ready and is awake or about to be woken |
| ChannelTheorems.PopNotStranded | channel.h:410-470 | the same for a pop whose item is on its way |
| ChannelTheorems.NobodyStranded | channel.h:632-710 | in every state of every run with an unfinished operation below a published barrier, some operation at or before it finds its slot ready and is awake or about to be woken |
| ChannelTheorems.NoLostWakeUp | channel.h:590-614 | a sleeper sees the exact value it slept on, waiting bit included, or a wake on its slot is pending; once the closed bit is set a sleeper at or past its barrier has a wake pending |
| ChannelTheorems.TurnedAwayIsWoken | channel.h:590-614 | once a close is complete a sleeper at or past its barrier has a wake pending |
| ChannelDrain.OpProgress | channel.h:316-566 | in every state of every run an awake operation whose slot is ready, or that a complete close turned away, gets closer to its end with every step it takes alone, and so does every try operation |
| ChannelDrain.OneFinishes | channel.h:316-716 | after a close, while some thread is busy, some thread can be run to its end alone |
| ChannelDrain.ClosedDrains | channel.h:128-131 | from every state of every run with a complete close some continuation, with no new operation and no spurious wake-up, leaves every thread idle, every ticket below a barrier done and the counters at their barriers |
| ChannelTrace.BusyWithCall | channel.h:316-716 | in every run a busy thread is inside of the call it made when it was last idle: same side, blocking or not, same item, same kind of close |
| ChannelTrace.CallMakesBusy | channel.h:316-716 | an idle thread that makes a call becomes busy with it |
| ChannelTrace.RecordedByCalls | channel.h:316-470 | in every run each item stored is the argument of a push or try push by the owner of its ticket, each item taken belongs to a pop or try pop of the owner of its ticket, and different tickets to different calls |
| ChannelTrace.PopReturnsArgument | channel.h:410-470 | what a pop returns is the argument of one particular push of the schedule |
| ChannelTrace.CloseCloses | channel.h:616-716 | in every run, once a call of close has returned, the channel is closing from then on |
| ChannelTrace.TryLooked | channel.h:472-566 | a try operation that answers unavailable loaded, after it began, the id of a slot that was not ready; one that answers that it lost a race found the counter different from the one it had loaded |
| ChannelAlone.CloseAlone | channel.h:616-716 | from every state of every run with nothing closing and no thread inside a close, a close left alone completes, with tail barrier min(tail, head + capacity), and head barrier the same for a push close and min(head, tail barrier) for a soft one |
| ChannelAlone.DeliversAlone | channel.h:316-470 | in every state of every run an awake operation that holds a ticket below its barrier and whose slot is ready, left alone, answers that it succeeded and leaves the counters alone |
| ChannelAlone.PushEnqueues | channel.h:316-377 | in a quiet open channel with room, a push or try push left alone succeeds and appends its argument |
| ChannelAlone.PopDequeues | channel.h:410-470 | in a quiet open channel with an item, a pop or try pop left alone returns the first item and leaves the others |
| ChannelAlone.TryGivesUp | channel.h:472-566 | in a full, or empty, quiet open channel a try push, or try pop, answers unavailable and changes nothing |
| ChannelAlone.BlockingSleeps | channel.h:316-470 | in a quiet open channel a blocking operation whose slot is not ready takes its ticket and falls asleep, with nothing stored or taken |
| Lz4Format.DecodeEncoded | slz4.h:569-627 | the careful decoder accepts the encoding of every valid token list and yields the tokens' expansion |
| Lz4Format.StepToken | slz4.h:569-627 | the careful loop reads an encoded token back with its match size modulo 2^32 |
| Lz4Format.DecodeYield | slz4.h:445-562 | an accepted stream in which no size wraps around and with many input bytes left still has room for as many output bytes, which is what the unchecked copies rely on |
| Lz4Format.PlainEncoded | slz4.h:705-725 | no size in the encoding of what fits a buffer wraps around |
| Lz4Format.LiteralsAreWorst | slz4.h:103-111 | no token list that leaves twelve literals encodes to more than all its bytes as literals |
| Lz4Format.TokenSize | slz4.h:326-338 | the predicted maximum bounds the token actually written |
| Lz4Format.UpperBoundFits | slz4.h:103-111 | tokens that pay for their literal-size bytes all pass their size checks within the upper bound |
| Lz4Format.EncodedSizeFits | slz4.h:313-321 | the encoded size plus sixteen passes every size check |
| Lz4Accept.SpelledVerdict | slz4.h:569-627 | as long as no size wraps around, the result of decoding an encoding of any tokens, with any match half of the last token byte: what the tokens stand for, or the error of the first token that does not fit the output or whose offset is zero or reaches before it |
| Lz4Accept.GroundedExactly | slz4.h:612-623 | into a large enough output an encoding is accepted if and only if every match starts inside what was produced, and rejected for its offset otherwise |
| Lz4Accept.AcceptsExactly | slz4.h:569-627 | a stream is decoded to r without a size wrapping around if and only if it is the encoding of tokens that stand for r, up to the match half of the last token byte, all matches start inside what was produced, and r fits |
| Lz4Accept.TruncatedVerdict | slz4.h:569-627 | an accepted stream that is cut short is reported as too short or, failing that, accepted with a beginning of the whole result |
| Lz4Accept.KnownMatch | slz4.h:569-627 | the bytes 10 61 01 00 10 62 decode, into any output of six bytes or more, to 61 61 61 61 61 62 |
| Lz4Accept.KnownBadOffset | slz4.h:612-623 | with offset 5 in place of 1 they are rejected because the offset is bigger than the position |
| Lz4Accept.KnownLongLiterals | slz4.h:584-605 | the bytes f0 01 and sixteen more decode to those sixteen |
| Lz4Phases.FastStepRefines | slz4.h:451-554 | a round of the fast loop that goes on does exactly what the careful loop does; one that leaves a buffer either is within 34 bytes of the end of the output, past the window size if not within 16, or makes the careful loop leave it too |
| Lz4Phases.TwoPhaseRefines | slz4.h:403-627 | on every input both phases together give the careful loop's result or leave a buffer |
| Lz4Phases.PlainAgrees | slz4.h:434-562 | they give exactly its result on every stream it accepts in which no size wraps around |
| Lz4Phases.SmallAgrees | slz4.h:434-562 | and on every stream whatsoever when the output is smaller than 65585 bytes |
| Lz4Phases.EncodedAgrees | slz4.h:403-627 | both decoders invert the encoder |
| Lz4Phases.ExactSizeSuffices | slz4.h:771-793 | an accepted stream in which no size wraps around is decompressed the same into a buffer of exactly its decompressed size |
| Lz4Limits.WrappingIsAccepted | slz4.h:569-627 | the careful loop accepts a stream whose last match size, after 16843008 bytes of 255, wraps around to 5 |
| Lz4Limits.WrappingStrays | slz4.h:481-525 | on that stream the fast phase copies past the end of an output of 65585 bytes |
| Lz4Limits.AcceptedAgree | slz4.h:434-562 | on all accepted streams with runs of 255 bytes up to r and outputs up to c the phases agree with the careful loop if and only if r < 16843008 or c < 65585 |
| Lz4Limits.AllAgree | slz4.h:434-562 | on all streams with such runs and outputs, accepted or not, they agree if and only if c < 65585 |
| Lz4Limits.CarefulStays | slz4.h:586-623 | on all streams with such runs and outputs the careful loop stays inside its buffers if and only if c = 0 or 255 r + 273 + c < 2^32 |
| Lz4Limits.DecompressorStays | slz4.h:403-627 | the whole decompressor does if and only if in addition c < 65585 |
| Lz4Decompress.ReadLongSize | slz4.h:705-725 | the 32-bit loop returns the extended size modulo 2^32; zero exactly when the limit is reached first or the size wraps around to zero |
| Lz4Decompress.CarefulToken | slz4.h:569-627 | one round of the careful loop does what one token step of the format does, errors and leaving a buffer included |
| Lz4Decompress.Careful | slz4.h:569-627 | the careful loop gives the decoder's result on every input |
| Lz4Decompress.CopyShortMatch | slz4.h:513-525 | the copies of 8, 8 and 4 bytes give the byte-by-byte match for every offset of at least 8 |
| Lz4Decompress.FastToken | slz4.h:451-554 | one round of the fast loop over the array, with its 16, 20 and 32 byte copies, is the fast step of the format, breaks and faults included |
| Lz4Decompress.FastPhase | slz4.h:445-562 | the fast phase leaves a buffer exactly when the fast run does, and otherwise stops at a token from which the careful loop gives the run's result |
| Lz4Decompress.Decompress | slz4.h:403-627 | returns the length and bytes, the error or the leaving of a buffer that the two phases give on every input, and refuses sizes above the maximum |
| Lz4Tokens.MatchAgrees | slz4.h:232-247 | the eight-byte comparison returns a length over which the bytes agree |
| Lz4Tokens.SearchFinds | slz4.h:221-254 | whatever the table holds, a usable match lies in the window and repeats the input |
| Lz4Tokens.MoveIsSound | slz4.h:256-307 | an emitted match has an offset of 1 to 65535, reproduces the input, and is longer than what its literals cost |
| Lz4Tokens.TokensAreSound | slz4.h:202-307 | the chosen tokens reproduce a prefix of the input that ends before its last twelve bytes |
| Lz4Tokens.LiteralStrides | slz4.h:269-272 | the literals of every token are a multiple of the speed in number |
| Lz4Repeats.MatchIsMaximal | slz4.h:232-247 | the eight-byte comparison does not end before the first difference, unless it is past where matches have to end |
| Lz4Repeats.LongestIsFound | slz4.h:221-254 | the match found is at least as long as the agreement with any bucket entry such that neither it nor a newer one is more than 65535 bytes back |
| Lz4Repeats.RepeatIsTaken | slz4.h:256-307 | every such repeat of at least four bytes that is longer than what its literals cost is taken, at its length or more |
| Lz4Repeats.MoveRemembers | slz4.h:256-307 | at speed one every move of the walk keeps in each bucket exactly the newest positions of its hash |
| Lz4Repeats.NearRepeatIsTaken | slz4.h:221-307 | where the table holds the newest positions of every hash, every repeat that pays and lies at most a bucket's size back is taken |
| Lz4Repeats.PeriodicShrinks | slz4.h:122-321 | at speed one an input whose period q is at most a bucket's size compresses to at most q + n/255 + 27 bytes |
| Lz4Compress.RoundTrip | slz4.h:122-321 | decoding the compressed form gives back the input, by the careful loop and by both phases, for every speed and every table shape whose exponents are below 32 together |
| Lz4Compress.NeverWorse | slz4.h:103-111 | the compressed form is never larger than the input as plain literals |
| Lz4Compress.EndOfBlockConditions | slz4.h:196-203 | every offset is 1 to 65535, every match is at least four bytes and the last twelve bytes of the input are literals, which covers the end-of-block conditions of the LZ4 Block Format Description |
| Lz4Compress.UpperBoundSuffices | slz4.h:103-111 | with the upper bound as capacity no size check fails, and the compressed form is within it |
| Lz4Compress.DryRunSuffices | slz4.h:313-321 | with the dry run's result as capacity no size check fails |
| Lz4Compress.OutputToken | slz4.h:324-401 | writes the token's encoding exactly when its predicted size fits, and only counts in a dry run |
| Lz4Compress.FindLongest | slz4.h:221-254 | the bucket loop finds what the search function finds |
| Lz4Compress.InsertPositions | slz4.h:291-301 | positions covered by a match enter the table as specified |
| Lz4Compress.CompressTokens | slz4.h:202-307 | the main loop writes the chosen tokens in order or stops at the first that does not fit |
| Lz4Compress.Compress | slz4.h:122-321 | the output is the compressed form exactly when every size check passes; a dry run writes nothing and returns its size plus sixteen |
| Lz4Compress.CompressAndDecompress | slz4.h:815-870 | compressing into the dry run's capacity and decompressing gives back the input if and only if the compressed form is within the decompressor's own size limit, and so for every input that is within it as plain literals |
| Lz4Worst.NoRepeat | slz4.h:221-254 | there is a byte sequence of every length in which no four bytes come again within the window |
| Lz4Worst.WorstCase | slz4.h:103-111 | for every length and setting it compresses to the size of plain literals, the largest there is for inputs up to that length |
| Lz4Worst.LengthsThatReturn | slz4.h:815-870 | all inputs of at most n bytes compress to something the decompressor takes if and only if n bytes as literals are |
| Lz4Shape.MemoryDoesNotMatter | slz4.h:172-184 | for exponents below 32 together the compressed form does not depend on what the caller's table memory held |
| Lz4Shape.WrappedTableFails | slz4.h:172-184 | for others, with zeroed table memory, every input of at least sixteen bytes compresses to a stream that starts with offset zero, which the decoder rejects |
| Lz4Shape.ShapesThatWork | slz4.h:113-184 | the round trip holds for all inputs and all table memories if and only if the exponents are below 32 together |
| TlsfBins.FloorBin | allocator_tlsf.h:373-402 | rounding down gives the bin whose range holds the size |
| TlsfBins.CeilBin | allocator_tlsf.h:373-402 | rounding up gives the first bin all of whose sizes are large enough, wasting at most one eighth |
| TlsfBins.GapFits | allocator_tlsf.h:373-402 | a gap's bin is at or above a bin exactly when the gap is at least the bin's size |
| TlsfBins.BinRoundTrip | allocator_tlsf.h:373-402 | the two mappings invert each other on bin sizes |
| TlsfBins.BinMonotone | allocator_tlsf.h:373-402 | both roundings are monotone |
| TlsfBins.BinRange | allocator_tlsf.h:412-414 | 32-bit sizes use bins below 240, larger requests start at or above it |
| TlsfLists.LinkBins | allocator_tlsf.h:612-630 | linking keeps all bin lists, heads and masks in agreement |
| TlsfLists.UnlinkBins | allocator_tlsf.h:584-610 | unlinking keeps them in agreement |
| TlsfHeap.InsertOrder | allocator_tlsf.h:461-481 | a block placed in a gap keeps the memory order sorted and free of overlaps |
| TlsfHeap.RemoveOrder | allocator_tlsf.h:563-579 | removing a block keeps it so |
| TlsfPlacement.SearchIsComplete | allocator_tlsf.h:412-436 | the mask search succeeds if and only if some gap is at least 8 and at least the size of the rounded-up bin |
| TlsfPlacement.FoundGap | allocator_tlsf.h:454-494 | every node the search can pick has room for the block, its alignment and its offset |
| TlsfPlacement.FirstBinFitsBest | allocator_tlsf.h:412-436 | no large enough gap is in a bin below the first one in use from the rounded-up size on |
| TlsfTheorems.BlocksDisjoint | allocator_tlsf.h:917-987 | blocks are pairwise disjoint, in order and inside the memory |
| TlsfTheorems.Conservation | allocator_tlsf.h:989-1066 | block sizes and gaps add up to the memory size |
| TlsfTheorems.Membership | allocator_tlsf.h:964-984 | a node is in bin b if and only if its gap is at least 8 and maps to b |
| TlsfTheorems.NodesCounted | allocator_tlsf.h:1049-1063 | used and unused nodes together are all nodes |
| TlsfTheorems.GrownGapSuffices | allocator_tlsf.h:632-666 | a last gap of at least max(8, needed size) makes the request succeed |
| TlsfTheorems.FreeUndoesAllocate | allocator_tlsf.h:521-582 | freeing the block just allocated restores every node, bin head, mask, list and the unused list exactly |
| TlsfTheorems.ListsDetermineHeap | allocator_tlsf.h:989-1066 | a consistent heap is determined by its lists and block positions |
| TlsfAllocator.Allocator.FindBin | allocator_tlsf.h:412-436 | the word-by-word scan finds the first non-empty bin at or above the start |
| TlsfAllocator.Allocator.Link | allocator_tlsf.h:612-630 | puts the node at the front of the bin's list and moves no other node |
| TlsfAllocator.Allocator.Unlink | allocator_tlsf.h:584-610 | takes the node out of the bin's list and moves no other node |
| TlsfAllocator.Allocator.Allocate | allocator_tlsf.h:409-519 | succeeds if and only if there is an unused node and a large enough gap; no large enough gap is in a lower bin than the gap taken, and the block starts at its first aligned byte; the new order, bins and unused list are as specified; on failure only the failure report changes |
| TlsfAllocator.Allocator.Deallocate | allocator_tlsf.h:521-582 | the block's bytes join the gap after it and its node becomes the first unused one; all other blocks stay |
| TlsfAllocator.Allocator.GrowMemory | allocator_tlsf.h:632-666 | only the last gap grows, by exactly the added memory |
| TlsfAllocator.Allocator.GrowNodes | allocator_tlsf.h:668-696 | new nodes come in front of the unused ones, whatever the new memory held |
| TlsfAllocator.Allocator.Init | allocator_tlsf.h:745-809 | fails below two nodes, otherwise one gap spans the memory |
| TlsfAllocator.Allocator.AllocateAndFree | allocator_tlsf.h:454-582 | allocating and freeing leaves the whole state unchanged |
| TlsfAllocator.Allocator.AllocateGrowing | allocator_tlsf.h:269-276 | after growing by what the failure report asks for, the retry succeeds |
| SortInsertion.Insert | sort.h:99-111 | moves one item to its place among the sorted ones before it |
| SortInsertion.InsertionSort | sort.h:91-112 | sorts a stretch in place, a permutation of it, leaving the rest alone |
| SortHeap.PickChild | sort.h:182-192 | finds a largest of a node and its children |
| SortHeap.BubbleDown | sort.h:179-199 | mends the one defective node of a heap whose other defects are all above it |
| SortHeap.BubbleTwoPhase | sort.h:201-229 | fills the hole at the root; the result is a heap except that at even sizes the only child of the last parent may be above its parent, but not above its grandparent |
| SortHeap.RootIsLargest | sort.h:204-214 | such a heap still has its maximum at the root |
| SortHeap.SecondLargest | sort.h:144-146 | everything but the root is at most the larger of the root's children |
| SortHeap.PopTwo | sort.h:137-150 | the two largest items become final and the rest is a heap again |
| SortHeap.PopOne | sort.h:169-173 | the largest item becomes final and the rest is such a near heap again |
| SortHeap.MakeHeap | sort.h:121-125 | mending from the last parent up gives a heap |
| SortHeap.HeapSort | sort.h:117-177 | sorts a stretch in place on both paths, a permutation of it |
| SortQuick.ScanUp | sort.h:289-290 | the upward scan stops inside the region, at an item not below the pivot |
| SortQuick.ScanDown | sort.h:291-292 | the downward scan stops inside the region, at an item not above the pivot |
| SortQuick.MedianOfThree | sort.h:280-284 | three conditional swaps put the median of three in the middle |
| SortQuick.Partition | sort.h:280-298 | splits a region into a part at most and a part at least the pivot, both smaller than the region |
| SortQuick.StackSuffices | sort.h:242-245 | a region that is still partitioned is less than 58 levels deep, so the 64 stack entries suffice |
| SortQuick.PartitionStep | sort.h:300-334 | postponing the larger part keeps every pair of items either in order or together in one pending region |
| SortQuick.SortCurrent | sort.h:268-342 | finishes one region and leaves only the postponed ones |
| SortQuick.QuickSort | sort.h:232-354 | sorts the array, a permutation of it, for every strict weak order |
| SortQuick.HqSort | sort.h:368-375 | the same with the library's threshold |
| SortMerge.MergeSorted | sort.h:410-431 | merges two sorted stretches into one, also when the second length is negative |
| SortMerge.MergePass | sort.h:443-448 | doubles the length of the sorted runs in the other buffer |
| SortMerge.MergeSort | sort.h:433-465 | sorts between two buffers and ends in the input unless told otherwise |
| SortMerge.LowerBoundNoFail | sort.h:377-396 | returns the lower bound or the position before it |
| SortMerge.LowerBound | sort.h:398-408 | everything before the result is below the item and nothing from it on is |
| HashProbe.ProbesDiffer | hash.h:147-176 | the first capacity probes of a power-of-two table are all different |
| HashProbe.EverySlotProbed | hash.h:147-176 | and visit every slot |
| HashTable.FirstEmpty | hash.h:153-176 | probing for any hash meets an empty slot within capacity steps |
| HashTable.AbsentWhenUnmatched | hash.h:153-176 | no match before the first empty slot means the hash is absent |
| HashMap.BuryOnlyEntries | hash.h:488-499 | turning a slot into a gravestone keeps the table consistent if and only if the slot held an entry |
| HashMap.EmptyIsNotForBurying | hash.h:488-499 | every table with entries has a slot whose burying leaves it inconsistent |
| HashMap.BacklinksAreSlots | hash.h:291-319 | when no two entries share a value, every backlink is its entry's slot |
| HashMap.Hash.FindNext | hash.h:153-176 | continues to the next entry of the hash or tells that none is left |
| HashMap.Hash.Find | hash.h:419-427 | finds an entry if and only if one with the hash is in the multiset |
| HashMap.Hash.Iterate | hash.h:429-439 | one call moves to the next matching probe |
| HashMap.Hash.IterateAll | hash.h:429-439 | iterating to the end yields the slot of every entry of the hash exactly once |
| HashMap.Hash.NewCapacity | hash.h:335-337 | exactly the first power of two from 16 on of which three quarters hold what is required |
| HashMap.Hash.Refill | hash.h:291-319 | moves all entries into fresh slots, drops gravestones and sets the backlinks; the table is consistent if and only if no entry's value is reserved in it |
| HashMap.Hash.CopyRehash | hash.h:322-363 | keeps the multiset of the source table, which may be the same table or have another empty value; the result is consistent if and only if no entry has one of the two values reserved in the target |
| HashMap.Hash.Reserve | hash.h:405-410 | afterwards the asked number of entries plus gravestones is within three quarters of the capacity; nothing moves if it already was |
| HashMap.Hash.Slot | hash.h:206-230 | finds an entry of the hash; else the last gravestone before the first empty slot, or that slot if there is none; with forced insertion the first slot not in use |
| HashMap.Hash.FindOrInsert | hash.h:198-245 | adds the entry unless one with the hash is present and inserting is not forced |
| HashMap.Hash.Set | hash.h:480-486 | replaces exactly one entry of the hash or adds one |
| HashMap.Hash.Remove | hash.h:488-499 | removes the entry at an index; refuses an index out of range; stays consistent if and only if the slot held an entry |
| HashMap.Hash.RemoveWithHash | hash.h:442-448 | removes exactly the entries of the hash and counts them |
| HashMap.Hash.Clear | hash.h:247-258 | leaves the empty multiset in the same capacity |
| SpmcTheorems.EveryRun | spmc_queue.h:216-361 | every state of every run of pushes, reserve calls and pops satisfies the invariant |
| SpmcTheorems.ExactlyOnceFifo | spmc_queue.h:216-341 | the winning swaps have returned exactly the front of what was pushed, in order; the rest is in the current ring |
| SpmcTheorems.WinnerReturnsItsItem | spmc_queue.h:295-341 | a winning swap returns the item of its own position, however stale its estimates and its block |
| SpmcTheorems.LoserWasOvertaken | spmc_queue.h:334-338 | a swap is lost only to a consumer that popped in the meantime |
| SpmcTheorems.EmptyIsTrue | spmc_queue.h:303-310 | empty is reported only if the queue was empty when the tail was loaded |
| SpmcTheorems.WriteKeeps | spmc_queue.h:280-286 | a write behind the tail overwrites no unread item in any block a consumer may look at |
| SpmcTheorems.CopyKeeps | spmc_queue.h:238-247 | a new ring holds every item that is still unread |
| SpmcLimit.RoundedBounds | spmc_queue.h:216-231 | no run stores more items than the limit rounded up to a power of two from 64 on |
| SpmcLimit.RefusedExactly | spmc_queue.h:258-277 | a push that has to grow the ring is refused, changing nothing, if and only if memory is not granted, what it asks for is above a limit that is not negative, or it pushes nothing and there is no ring |
| SpmcLimit.OnlyZeroRefusesAll | spmc_queue.h:216-231 | nothing is pushed in any run if and only if the limit is zero |
| SpmcLimit.LimitHolds | spmc_queue.h:216-231 | the limit itself bounds the stored items in all runs if and only if rounding up does not change it |
| SpmcTrace.PushedAreArguments | spmc_queue.h:258-289 | in every run the items pushed are the arguments of some of the pushes made, each whole, in order |
| SpmcTrace.EmptyWasTrue | spmc_queue.h:295-310 | a pop that ends without a swap loaded, in that same pop, the tail of a queue that was empty |
| SpmcTrace.PushAlone | spmc_queue.h:258-289 | a push left alone with memory granted ends with its items pushed if there is room or may be made, and with nothing changed but the producer's estimate otherwise |
| SpmcTrace.PopAlone | spmc_queue.h:295-341 | a pop left alone takes the oldest item, or ends with nothing taken if there is none |
| ScratchArena.AcquireKeeps | scratch.h:430-431 | the one-slot fix-up keeps every live block below the current slot |
| ScratchArena.ReleaseKeeps | scratch.h:459-461 | releasing any frame rewinds its stack to a slot past everything the frames below it hold |
| ScratchArena.ReleaseGivesBack | scratch.h:415-470 | acquiring a frame, whatever pushes and frames above it follow, and releasing it leaves the first free byte where it was |
| ScratchArena.PushKeeps | scratch.h:326-378 | after a fall, a rise or neither the new block is past every live one |
| ScratchArena.UnusualPush | scratch.h:322-385 | levels the slots, aligns and commits as specified, and succeeds if and only if the block fits the committed memory or the memory to commit is within the reserved memory and granted |
| ScratchArena.AlignedIsCovered | scratch.h:344-350 | committed memory covers a block whose alignment divides the end of the committed memory |
| ScratchArena.CoarseIsNotCovered | scratch.h:344-350 | a coarser alignment can leave the end of a block without committed memory |
| ScratchArena.PushedInside | scratch.h:344-378 | a push stays within committed memory if and only if the committed amount covers its padding |
| ScratchArena.LiveBlocksApart | scratch.h:95-236 | in every consistent arena that stays inside its memory all live blocks of both stacks are pairwise apart |
| ScratchArena.SpareLevel | scratch.h:301-301 | the slot of a frame lies before the data if and only if a level is spare |
| ScratchArena.Arena.Acquire | scratch.h:415-447 | opens the next frame and keeps all live blocks apart |
| ScratchArena.Arena.Push | scratch.h:387-406 | from any live frame, succeeding exactly as stated for the unusual push: the new block is aligned and apart from every live block of its stack, and of the other stack while both stay inside their memory |
| ScratchArena.Arena.Release | scratch.h:449-470 | releasing any live frame ends exactly its blocks and those of all frames opened after it, on both stacks, and keeps the rest apart |

## Left out

- Channel: hard close, reopening, the spinning variant without wait and wake, sleeping on the close lock, ticket and id
  wrap-around, reference counting, memory ordering weaker than sequential consistency.
- Lz4Decompress.Decompress: the dry run of the decompressor, the malloc wrappers, error texts and magic bytes are not
  modelled. Leaving a buffer is undefined in C and ends the model there.
- Lz4Compress.Compress: table exponents are 1 to 29 and below 32 together. For other shapes the source goes on with
  overlapping tables; `Lz4Shape` models them on values and shows that the round trip fails, with assertions off. The
  comparison of eight bytes by exclusive or is modelled as the first differing byte.
- Lz4Compress.RoundTrip: the same shapes; `Lz4Shape.ShapesThatWork` has the others.
- Lz4Compress.EndOfBlockConditions: the same shapes; in the others an offset can be zero (`Lz4Shape.WrappedTableFails`).
- Lz4Compress.CompressAndDecompress: the same shapes; the second buffer has the size of the input instead of the one
  found by a dry run of the decompressor.
- TLSF: the 64-bit mode, `tlsf_reset`, the malloc header and magic bytes, and copying the user's memory on growth. The
  memory size is below 0xFFFFFFFF and freed nodes are reset, as in debug builds. Alignment is modelled for every
  positive number; the source takes powers of two. The sum of size, alignment and offset does not overflow 64 bits.
- Sorts: prefetching, scratch space and the byte-wise copies. The stack of the quick sort is a sequence proved to stay
  below 64 entries. `SortHeap.BubbleTwoPhase` is modelled for the whole heap, the only way it is called.
- Hash table: `hash_copy_simple`, the in-place rehash built on it, and finding or removing by value. Capacities are
  unbounded, so three times the capacity never overflows.
- SpmcTheorems.ExactlyOnceFifo: pops take one item at a time and use the compare-exchange; batch pops, the
  single-consumer store, memory ordering and wrap-around of positions are not modelled. An item is copied in one step.
- ScratchArena.Arena.Acquire: needs one spare level per stack. Without one, which the source allows, the slot of the
  deepest frame is the first word of the data (`ScratchArena.SpareLevel`). It also needs a slot after the current one:
  releasing a frame below others leaves the other stack's current slot where it was.
- ScratchArena.Arena.Init: rounding of sizes, reserving memory and filling freed memory are not modelled.
- Everything else in the repository: the containers, strings, paths, math, images, logging, other allocators and the
  platform layer.
