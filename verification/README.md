# RE-Argo analyses, proved

This project models the analysis crate of RE-Argo, a reverse-engineering tool, and proves what
its hardest algorithms promise. Most of them are a fast, parallel or incremental form of
something simple, or an abstract interpreter: the model states the simple thing, models the
fast one as it is, and proves that they agree on every input, every run or every interleaving.

`dafny verify dfyconfig.toml` checks all of it.

## What is modelled

**Forward data flow over the blocks of a function** (`BlockFlow*.dfy`). A worklist takes
blocks, joins the states on the edges into each, walks its P-code and puts states on the edges
out; a block visited nine times is walked a last time from "nothing known" and left. The domain
is a parameter. Proved: the flow ends for any domain, monotone or not, within a bound
(`BlockFlowBound`); the last snapshot at a call describes every concrete run that reaches it
(`BlockFlowSnaps`), and whatever the domain keeps along all static ways holds of every state
recorded, so that nothing else is forgotten (`BlockFlowPrecise`); the blocks walked from nothing
known are where runs may start, said of the instructions alone (`BlockFlowEntries`); walking
only the blocks that can reach the wanted calls, over only the prefix of the lift that holds
them, records the same snapshots in the same order (`BlockFlowRestrict`, `BlockFlowCut`); the
methods that build the blocks, mark what is
relevant, scan the marks eight at a time, find the prefix and run the loop compute just that
(`BlockFlowMake`, `BlockFlowFlags`, `BlockFlowMarks`, `BlockFlowLoop`, `BlockFlowOwned`); and
the walk for lifts in any order, its blocks, edges, visits and worklist in maps keyed by
address, is the same flow over the same blocks whenever the addresses increase
(`BlockFlowLegacy`, `BlockFlowKeyed`, `BlockFlowKeyedLoop`).

**Byte-precise constants** (`ByteConst`, `Registers`, `RegisterFiles`, `Temporaries`,
`TemporaryEntries`, `CfgConst`, `CfgState`, `CallConstants`, `PreciseConstants`, `BlockFlowWrap`,
`ChainConstants`, `LastAddress`, `PackedBytes`). Registers and
temporaries are kept byte by byte, each known or not. Proved: the evaluator is sound, and exact
on known inputs, against a semantics of P-code on bytes and numbers; the register file and the
register list hold the same registers after the same operations, and lists compare as what they
hold does; temporaries are never stale and never overlap; the domain is sound for the flow;
and, end to end over all functions of a program, a value merged at a call is in its register in
every concrete run of the owning function that reaches the call, from its first instruction,
from outside or from code nothing leads to; and a value known on every way to the call is
merged there, unless a block is visited too often. A lift is a chain of instructions, so its
addresses increase or wrap around the address space once (`BlockFlowWrap`); the constants hold of
both, but for one case: of a lift that wraps, the walk keyed by address stops before an
instruction at the last address. That condition is exact (`ChainConstants`), and `LastAddress`
has a chain of eight instructions for which a merged value is wrong.

**Call sites and their rounds** (`CallTracker`, `CallSiteWalk`, `CallSiteSound`, `CallSummaries`,
`CallSiteRounds`). A linear walk tracks registers, temporaries and stack slots and reads the
arguments of each call; values every call passes seed the next round. Proved: the arguments given
are right in every concrete run, when loads from the frame bring what was stored; a walk that steps
over runs of code finds the sites of the walk that does not; the summaries folded in parts seed
as those of one pass do; and rounds that walk again only the functions seeded anew give the
sites of walking every function again in every round.

**The analysis pipeline** (`Pipeline`, `PipelineWindows`, `PipelineRun`). Analyzers declare
what they read and write; the read-only halves of some run together, early, and some run last.
Proved: under the declared contracts the program and the results are those of every analyzer
run alone at its place, and each half prepares in the earliest run it can.

**Function discovery** (`DiscoveryWalk`, `DiscoveryMeaning`, `DiscoveryAhead`, `DiscoveryThreads`,
`DiscoveryRun`, `DiscoveryList`, `BodyInsns`, `BodySet`). A recursive-descent walk reads code that
other threads decode ahead of it. Proved: the bodies it finds are closed under the flow and hold
nothing else, with the calls and references of exactly their instructions; however the threads
take entries, decode, hand over and offer new ones, all they hand over is what decoding gives and
no entry is decoded twice; and in every interleaving the functions, bodies, calls, references and
listed instructions are those of the walk alone. Packed bodies give back what was put in, and the
set made from them is the sorted one.

**The sweep for functions nothing calls** (`Covered`, `LinearSweep`). Candidates are decoded
ahead and looked up among the bodies afterwards. Proved: the intervals of the bodies are exactly
their union, and the sweep finds, in order, exactly the lines of instructions that run from a
candidate to their first end through no body known or found before.

**Hidden strings** (`Floss*.dfy`). Up to 64 decodings are scanned at once over chunks of the
buffer, with counts that stop early and a cap. Proved: the list, its order and where the cap
cuts it are those of one naive scan for each decoding; and the hits are the maximal runs of bytes
that decode to printable text and pass the filter, each at its own address.

**Signed division by multiplication** (`MagicDiv`). Proved: the search ends by `p = 62`, no
32-bit step overflows unless the divisor is 1 or -1, and the multiplier and shift divide every
32-bit number exactly when it is neither.

The decoder, the lifter, the analyzers and the data-flow domain are parameters: pure functions
with the contracts their documentation states. Threads are a state machine whose moves may come
in any order.

## Model

| member | source | states |
|---|---|---|
| `BlockFlowSnaps.FlowIsSound` | crates/reargo-analysis/src/blockflow.rs:766-913 | for any sound domain and blocks that run on into each other, at the last call op of an instruction of one block the last snapshot recorded describes the state of every concrete run that executes it, entered at the entry or at a block entered from somewhere unknown; saturated blocks and joins that are not monotone included |
| `BlockFlowPrecise.FlowIsPrecise` | crates/reargo-analysis/src/blockflow.rs:766-913 | the converse: whatever holds of the empty state where blocks are walked from it and is kept by the domain through ops, calls, jumps, fall-throughs and joins holds of every state recorded, unless a block is visited too often |
| `BlockFlowRun.StepKeeps` | crates/reargo-analysis/src/blockflow.rs:804-907 | every block taken keeps the invariant: a block off the worklist has on its edges out what a walk from its entry state gives, and visits stay within the cap |
| `BlockFlowRun.StepDecreases` | crates/reargo-analysis/src/blockflow.rs:804-830 | every block taken uses up one of its remaining walks or shortens the worklist, so the loop ends for any domain |
| `BlockFlowBound.PopsAreBounded` | crates/reargo-analysis/src/blockflow.rs:804-907 | blocks taken from the worklist number at most the blocks plus nine times the static edges, for any domain |
| `BlockFlowBound.VisitsAreBounded` | crates/reargo-analysis/src/blockflow.rs:25-25 | a block not walked from the empty state is walked at most nine times |
| `BlockFlowRestrict.RestrictionIsInvisible` | crates/reargo-analysis/src/blockflow.rs:793-801 | walking only a set of blocks closed under predecessors, over the first blocks of the lift, records the same snapshots in the same order as walking all |
| `BlockFlowCut.SlicingIsInvisible` | crates/reargo-analysis/src/blockflow.rs:622-703 | the blocks that reach a wanted call are such a set: restricted to them, the flow records what the whole flow does, in order |
| `BlockFlowCut.TruncationIsInvisible` | crates/reargo-analysis/src/blockflow.rs:293-302 | the prefix of the lift that reach finds, restricted to what reaches the owned calls, gives the owned calls the same snapshots, in the same order, as the whole lift |
| `BlockFlowLoop.Propagate` | crates/reargo-analysis/src/blockflow.rs:766-913 | the loop with its worklist, queued flags, edges sorted by block and jumps read in op order computes the run of the flow |
| `BlockFlowMake.ReadShape` | crates/reargo-analysis/src/blockflow.rs:111-137 | the shape holds each address, which instructions end a block or stop, and every jump with a target, in op order |
| `BlockFlowMake.FindNear` | crates/reargo-analysis/src/blockflow.rs:308-338 | the search outwards by doubling steps finds an address exactly when it is there |
| `BlockFlowMake.KeepCalls` | crates/reargo-analysis/src/blockflow.rs:658-703 | a block is kept exactly when a path of static edges leads from it to a block holding a wanted call |
| `BlockFlowMarks.BuildShaped` | crates/reargo-analysis/src/blockflow.rs:385-489 | the blocks built from the shape are the blocks of the lift as defined: starts, edges, jumps and unknown entries (which are where runs may start, `BlockFlowEntries.RootedIff`) |
| `BlockFlowEntries.RootedIff` | crates/reargo-analysis/src/blockflow.rs:453-474 | of a lift whose addresses increase, the blocks walked from the empty state are exactly those that start at the first instruction, at an address entered from outside, or at code of the extent no trail of instructions leads to from the first |
| `BlockFlowEntries.KeyedStartHasBlock` | crates/reargo-analysis/src/blockflow.rs:1000-1018 | of a lift that wraps, wherever a run may so start a block starts that the walk keyed by address walks from the empty state |
| `BlockFlowMarks.MakeMarks` | crates/reargo-analysis/src/blockflow.rs:236-282 | the marks say which instructions are jump targets and external entries, where each jump goes, and the owned calls |
| `BlockFlowFlags.ScanFlags` | crates/reargo-analysis/src/blockflow.rs:524-545 | the flags read eight at a time through trailing zeros of a masked word give the entry and the marked instructions, in order |
| `BlockFlowMarks.BuildMarkedUpto` | crates/reargo-analysis/src/blockflow.rs:502-620 | the blocks of a prefix, built from the marks and the flag scan, are those of the definition, whose entries from somewhere unknown `BlockFlowEntries.RootedIff` states |
| `BlockFlowMarks.Reach` | crates/reargo-analysis/src/blockflow.rs:293-302 | the prefix ends after the block of the last owned call, at a block start no later jump goes back over, or at the end of the lift |
| `BlockFlowOwned.OwnedSnapshots` | crates/reargo-analysis/src/blockflow.rs:766-913 | marks, prefix, blocks, restriction and loop together: the snapshots the flow over the whole lift records at the owned calls, in order |
| `BlockFlowKeyed.KeyedBlocks` | crates/reargo-analysis/src/blockflow.rs:934-1020 | for a lift in any order: the last index of each address, the block starts, the static successors and the unknown entries, all by address, are those of the definition, whose entries `BlockFlowEntries.KeyedStartHasBlock` states |
| `BlockFlowKeyedLoop.PropagateKeyed` | crates/reargo-analysis/src/blockflow.rs:927-1110 | the loop over maps keyed by address is, step by step, the run of the flow over those blocks, for every lift; on a lift that increases with nothing at the last address it records what the indexed loop does, in order |
| `BlockFlowLegacy.KeyedIsIndexed` | crates/reargo-analysis/src/blockflow.rs:766-1110 | on such a lift the blocks keyed by address and the indexed ones give the same run |
| `ByteConst.EvalIsSound` | crates/reargo-analysis/src/byteconst.rs:528-616 | every byte the evaluator knows is the byte the op writes, for all ops and sizes, whatever of the inputs is known |
| `ByteConst.EvalIsExact` | crates/reargo-analysis/src/byteconst.rs:528-616 | when every input byte is known, every output byte is |
| `PackedBytes.NonzeroBytes` | crates/reargo-analysis/src/byteconst.rs:146-152 | one addition and one multiplication of a 64-bit word give exactly the mask of its non-zero bytes |
| `PackedBytes.IntersectUnpacks` | crates/reargo-analysis/src/byteconst.rs:138-142 | the bytes of the packed intersection are the intersection of the bytes |
| `Registers.WriteAt` | crates/reargo-analysis/src/byteconst.rs:218-240 | after a write each byte is the one written, forgotten, or as before, byte by byte |
| `Registers.JoinAt` | crates/reargo-analysis/src/byteconst.rs:271-293 | a byte is known after a join exactly when both sides know it with one value |
| `RegisterFiles.RegFile.Write` | crates/reargo-analysis/src/byteconst.rs:218-240 | the file of fixed slots and a map writes as the byte-wise registers do |
| `RegisterFiles.RegFile.Join` | crates/reargo-analysis/src/byteconst.rs:271-293 | and joins so |
| `RegisterFiles.RegList.Write` | crates/reargo-analysis/src/byteconst.rs:324-356 | the sorted list writes as the byte-wise registers do |
| `RegisterFiles.RegList.Join` | crates/reargo-analysis/src/byteconst.rs:379-399 | and joins so, in one pass over both lists |
| `RegisterFiles.SameList` | crates/reargo-analysis/src/byteconst.rs:296-304 | two lists are equal exactly when the registers they hold are |
| `Temporaries.NeverStale` | crates/reargo-analysis/src/byteconst.rs:435-462 | after a write no entry describes a byte that was overwritten |
| `Temporaries.WriteKeepsValid` | crates/reargo-analysis/src/byteconst.rs:435-462 | a write at any offset leaves the entries narrow and pairwise disjoint |
| `TemporaryEntries.ByteMem.Write` | crates/reargo-analysis/src/byteconst.rs:435-462 | the sorted list, overlaps compacted in place, writes as the map does and stays sorted and disjoint |
| `TemporaryEntries.ByteMem.Join` | crates/reargo-analysis/src/byteconst.rs:469-488 | the join by one pass over both lists is the join of the maps |
| `CfgConst.ApplyDescribes` | crates/reargo-analysis/src/cfg_const.rs:158-251 | every op keeps a state that describes the machine describing it |
| `CfgConst.ViewRefreshIsNoOp` | crates/reargo-analysis/src/byteconst.rs:506-521 | an op taken for a view refresh changes no byte of the machine |
| `CfgConst.ConstFlowIsSound` | crates/reargo-analysis/src/cfg_const.rs:158-251 | the constants are a sound domain for the flow |
| `CfgState.State.Apply` | crates/reargo-analysis/src/cfg_const.rs:178-221 | the state kept as lists applies an op as the domain does |
| `CfgState.SameState` | crates/reargo-analysis/src/cfg_const.rs:158-176 | states compare equal exactly when they know the same |
| `CallConstants.MergedIsInLast` | crates/reargo-analysis/src/cfg_const.rs:141-153 | whatever was there before, what is merged at a call is part of the last snapshot taken there |
| `CallConstants.MergeSnapshots` | crates/reargo-analysis/src/cfg_const.rs:141-153 | a value for a register that every snapshot taken at a call has, and what was there before if anything was, is merged there |
| `BlockFlowWrap.ChainOrder` | crates/reargo-lift/src/lift.rs:297-305 | a lift, each address the one before plus its length, increases or wraps around once and then stays below its first address; it increases exactly when its last address is above its first or it is one instruction long |
| `BlockFlowWrap.WrapIsTiled` | crates/reargo-analysis/src/blockflow.rs:1058-1108 | the blocks keyed by address of a lift that wraps, none of it at the last address: each runs on into the next one or out of the lift |
| `BlockFlowWrap.BeforeWrapInOne` | crates/reargo-analysis/src/blockflow.rs:1070-1096 | and every instruction from the entry address on is in one block only |
| `CallConstants.FunctionConstants` | crates/reargo-analysis/src/cfg_const.rs:70-153 | for every lift the snapshots of the flow the code runs are merged at the owned calls, what they all agree on with what was there before is kept, and nothing changes at other addresses; when the lift increases, or wraps with nothing at the last address, a value merged at a call is in its register in every concrete run that reaches the call (the last of its instruction) from the first instruction, from an address entered from outside, or from code of the extent nothing leads to |
| `PreciseConstants.FoundByFlow` | crates/reargo-analysis/src/cfg_const.rs:70-153 | of a lift that increases, or wraps with nothing at the last address, a value the domain knows on every way of the flow over its blocks to an owned call that a run reaches is merged there, when what was there before allows and no block is visited too often |
| `PreciseConstants.FoundWhereKnown` | crates/reargo-analysis/src/cfg_const.rs:70-153 | of a lift whose addresses increase, a value the domain knows on every static way to an owned call that a run reaches is merged there, when what was there before allows and no block is visited too often |
| `CallConstants.ProgramConstants` | crates/reargo-analysis/src/cfg_const.rs:51-68 | the same of every function in the constants of the whole program: functions merged later own other calls |
| `ChainConstants.ChainHoldsIff` | crates/reargo-analysis/src/blockflow.rs:1070-1100 | for the addresses of any chain: what is merged holds, whatever the code does and the function owns, exactly when the addresses increase or none is the last address |
| `LastAddress.LastAddressConstants` | crates/reargo-analysis/src/blockflow.rs:1070-1100 | for a concrete chain of eight instructions that wraps, one at the last address, the constants give an owned call a value that is not in its register in a concrete run |
| `CallTracker.FlagsStay` | crates/reargo-analysis/src/callsite.rs:949-1085 | the two flags a reset keeps are only ever set, by every op |
| `CallTracker.ResetIsBlank` | crates/reargo-analysis/src/callsite.rs:974-977 | a reset leaves those two flags and nothing else |
| `CallTracker.ApplyIsDomain` | crates/reargo-analysis/src/callsite.rs:1003-1087 | loads, stores and frame addresses apart, the tracker knows registers and temporaries after an op exactly as the domain of the block flow does |
| `CallTracker.SpillReloads` | crates/reargo-analysis/src/callsite.rs:1024-1087 | what is spilled to a slot of the frame is what a load from it knows |
| `CallSiteSound.SitesAre` | crates/reargo-analysis/src/callsite.rs:474-503 | the sites of a function are those of its owned call ops, and no others |
| `CallSiteSound.SitesHold` | crates/reargo-analysis/src/callsite.rs:442-503 | in every concrete run from the entry, from outside or from behind an instruction that does not fall through, at an owned call an argument given is the value of its register, when loads from the frame bring what the tracker stored |
| `CallSiteWalk.WalkShaped` | crates/reargo-analysis/src/callsite.rs:442-503 | the walk up to the last owned call gives the sites of walking the whole lift with a reset at each join |
| `CallSiteWalk.PrefixOfMarks` | crates/reargo-analysis/src/callsite.rs:527-542 | the flags of the prefix are the joins and owned calls of the lift, and nothing after it is owned |
| `CallSiteWalk.WalkPrefix` | crates/reargo-analysis/src/callsite.rs:547-605 | stepping over runs with no owned call once both flags are set gives the same sites |
| `CallSummaries.PartsPass` | crates/reargo-analysis/src/callsite.rs:186-240 | what two parts of the calls pass to a parameter is the parts combined |
| `CallSummaries.SeedingSummaries` | crates/reargo-analysis/src/callsite.rs:184-254 | folded in parts, the summaries pin exactly the parameters that some call passes a value and every call passes that value, and a function has one when a parameter of it is so |
| `CallSummaries.SeedsAlike` | crates/reargo-analysis/src/callsite.rs:155-184 | a function seeded with them starts as with all values passed to it collected one call after the other |
| `CallSiteRounds.Dedup` | crates/reargo-analysis/src/callsite.rs:379-400 | with or without the shortcut for ascending sites, exactly the sites with none before at their address, in order |
| `CallSiteRounds.KeepClosed` | crates/reargo-analysis/src/callsite.rs:263-325 | a summary is kept exactly when its function is entered only through the calls of the sites |
| `CallSiteRounds.RewalkFunctions` | crates/reargo-analysis/src/callsite.rs:787-864 | the walks done again or taken from the round before are those with the summaries of this round |
| `CallSiteRounds.ResolveRounds` | crates/reargo-analysis/src/callsite.rs:702-753 | the sites are those of a round in which every function is walked again with what the sites of the round before pass: the first that leaves as many arguments known as the one before, or the last allowed |
| `PipelineWindows.Windows` | crates/reargo-analysis/src/manager.rs:269-321 | the runs cover the analyzers in order, and each split analyzer prepares in the earliest run after every writer of what it reads |
| `PipelineRun.RunAll` | crates/reargo-analysis/src/manager.rs:212-267 | under the declared contracts, the program and each result are those of every analyzer run alone at its place, whatever is prepared early or put last |
| `Pipeline.TailEnds` | crates/reargo-analysis/src/analyzer.rs:37-47 | once the analyzers that run last have run after all the others, the program is that of each run at its place |
| `BodyInsns.Body.Push` | crates/reargo-analysis/src/discovery.rs:186-223 | a packed body holds what was pushed, in order, packed or wide |
| `BodyInsns.Body.IntoVec` | crates/reargo-analysis/src/discovery.rs:225-253 | and gives it back |
| `BodySet.IntoSet` | crates/reargo-analysis/src/discovery.rs:257-298 | the set made by merging packed runs is the one list that is the instructions sorted by address, once each |
| `BodySet.BodySetOf` | crates/reargo-analysis/src/discovery.rs:403-444 | and so is the one made from a list: however the body is kept the set is the same |
| `DiscoveryAhead.SpeculateOne` | crates/reargo-analysis/src/discovery.rs:1326-1409 | whatever a thread sees of the others, each instruction it decodes ahead is the one decoding gives, and its entry and targets are where it says |
| `DiscoveryThreads.HandOver` | crates/reargo-analysis/src/discovery.rs:846-855 | a thread hands over what it decoded as the next of its list; it is true, and what was done stays |
| `DiscoveryThreads.TakeEntry` | crates/reargo-analysis/src/discovery.rs:827-845 | a thread takes the first entry queued that the walk is not on |
| `DiscoveryThreads.RunThreads` | crates/reargo-analysis/src/discovery.rs:817-865 | in every interleaving of the moves of threads and walk, all that is done is true and in its thread's list, no entry is decoded twice, and nothing done is ever undone |
| `DiscoveryRun.Fetch` | crates/reargo-analysis/src/discovery.rs:1172-1208 | an instruction read through a hint, a search, code done ahead or the decoder is the one decoding gives |
| `DiscoveryMeaning.RefsMean` | crates/reargo-analysis/src/discovery.rs:1420-1448 | an instruction makes exactly the references of its kind, that of a fall-through last |
| `DiscoveryMeaning.DiscoveredMeans` | crates/reargo-analysis/src/discovery.rs:463-648 | bodies are closed under the flow: after a call, an indirect call or a fall-through the next instruction is visited or does not decode, after a jump its target, after a conditional jump both, but where a block is cut after the allowed number of instructions; every address of a body is its entry or so led to; the calls are those of the body, ascending and once each, the references those of its instructions in order; entries are taken in the order they were given and found; an entry given is settled, and a call is to where something was visited, to a known function or an entry |
| `DiscoveryRun.Disassemble` | crates/reargo-analysis/src/discovery.rs:1463-1568 | the walk of a function finds what one thread finds, its body closed under the flow, and all it read is accounted for |
| `DiscoveryList.Discover` | crates/reargo-analysis/src/discovery.rs:324-392 | the run gives the functions, bodies, calls and references of one thread, as `DiscoveryMeaning.DiscoveredMeans` says, and the listing of exactly the instructions walked, whatever was done ahead at each read |
| `DiscoveryList.DiscoverInterleaved` | crates/reargo-analysis/src/discovery.rs:463-648 | the same in every interleaving of the threads' moves and the walk's reads, with nothing assumed of what the threads decoded |
| `Covered.CoveredSet.FromRanges` | crates/reargo-analysis/src/linear_sweep.rs:203-214 | the intervals are ascending, disjoint and not touching, and cover exactly the union of the raw ones |
| `Covered.CoveredSet.Insert` | crates/reargo-analysis/src/linear_sweep.rs:248-269 | inserting adds exactly the interval and keeps them so |
| `Covered.CoveredSet.Hits` | crates/reargo-analysis/src/linear_sweep.rs:217-238 | whether some point, sorted or not, is covered |
| `Covered.CoveredSet.Contains` | crates/reargo-analysis/src/linear_sweep.rs:241-244 | whether an address is covered |
| `LinearSweep.WalkCandidate` | crates/reargo-analysis/src/linear_sweep.rs:415-442 | a candidate walked ahead has an end and addresses to look up such that, whatever the bodies, the end is given and none of the addresses is in a body exactly when a function is there and ends so |
| `LinearSweep.ValidateMeans` | crates/reargo-analysis/src/linear_sweep.rs:475-516 | trying a candidate finds an end exactly when there are addresses from it on, each the one before plus its length, all lifted, within the budget and in no body, of which the last and no other ends the flow, the end being behind the last, and three instructions lift from it within the budget |
| `LinearSweep.AheadIsOnTheSpot` | crates/reargo-analysis/src/linear_sweep.rs:475-516 | for every set of bodies, looking those addresses up afterwards answers as trying the candidate on the spot does |
| `LinearSweep.SweepAhead` | crates/reargo-analysis/src/linear_sweep.rs:95-145 | the sweep over candidates walked ahead finds the functions the sweep on the spot does, in order: at each address not tried before exactly the function that is there apart from the known bodies and those found before |
| `LinearSweep.FoundApart` | crates/reargo-analysis/src/linear_sweep.rs:118-144 | each function found is a line of instructions from its entry, none but the last ending the flow, to the end of the last, none starting in a known body or in one found before; each is found once |
| `FlossScan.WindowAnd` | crates/reargo-analysis/src/floss_lite.rs:511-526 | the doubling shifts give, at each byte, the passes that print all of the window |
| `FlossScan.ScanChunk` | crates/reargo-analysis/src/floss_lite.rs:391-504 | scanning all passes of a group at once finds for each pass exactly its kept runs that start in the chunk |
| `FlossGroup.DistinctIff` | crates/reargo-analysis/src/floss_lite.rs:360-375 | which passes decode three bytes to distinct letters, found at once |
| `FlossFilter.RestPasses` | crates/reargo-analysis/src/floss_lite.rs:587-659 | the counts that stop early decide as the filter does |
| `FlossDecode.KeepsSplit` | crates/reargo-analysis/src/floss_lite.rs:555-676 | what is asked while scanning and after is together the whole filter |
| `FlossMeaning.SearchMeans` | crates/reargo-analysis/src/floss_lite.rs:216-277 | each hit is what one way of decoding makes of the bytes from its address on: all printable, those next to them not, at least the least length, passing the filter; below the cap every such run of every way is a hit; and hits come by way, then by address |
| `FlossSearch.WaysTried` | crates/reargo-analysis/src/floss_lite.rs:336-341 | the ways tried are every key but 0 of the exclusive or and of the addition, and every rotation from 1 to 7, as the options say |
| `FlossSearch.DecodeNaive` | crates/reargo-analysis/src/floss_lite.rs:714-750 | one scan after the other gives the hits up to the cap, as `FlossMeaning.SearchMeans` says |
| `FlossSearch.DecodeInChunks` | crates/reargo-analysis/src/floss_lite.rs:216-277 | groups and chunks of any size give the same hits, in the same order, cut by the cap at the same place: hits as `FlossMeaning.SearchMeans` says |
| `MagicDiv.MagicS32` | crates/reargo-analysis/src/magic_div.rs:28-62 | the search ends with a power of at most 62, for |d| >= 2 no 32-bit step overflows and the multiplier and shift satisfy the reciprocal condition; for 1 and -1 the result after the wrap of the quotient |
| `MagicDiv.MagicDividesIff` | crates/reargo-analysis/src/magic_div.rs:28-62 | multiplier and shift divide every 32-bit dividend, truncating, exactly when the divisor's absolute value is at least 2 |

## Left out

- CallConstants.FunctionConstants: a concrete run contains only ops that `CfgConst.WellFormed` admits (operand sizes of the op, outputs in registers or temporaries away from the ends of the offset space), and a jump with a target outside the program's memory space, a relative one within an instruction, is no step of a run.
- CallConstants.ProgramConstants: the same.
- BlockFlowSnaps.FlowIsSound: of an instruction with several call ops it speaks of the last, since snapshots go by the address of the instruction.
- BlockFlowKeyedLoop.PropagateKeyed: equals the indexed walk when no instruction is at the last address of the address space, where the walk keyed by address stops short.
- PackedBytes.IntersectUnpacks: only the intersection is derived from its packed form; truncation, merging and reading at a position are modelled on the bytes.
- DiscoveryList.DiscoverInterleaved: what a thread sees of the claims and the stop flag while it decodes is arbitrary rather than tied to the moves between; that the walk offers the calls it found is a move with any calls.
- FlossSearch.DecodeInChunks: the sets of passes are sets of numbers rather than bits of words; the hits are compared before they are sorted and freed of repeats, which is the same step for both.
- RegisterFiles.RegFile.Write: a write wider than a register, or across two, that ends past the start of the last register of the space is not modelled: there the program's step to the next register runs past 64 bits.
- RegisterFiles.RegList.Write: the same.
- The decoder, the lifter, symbols and section bytes are parameters; the lift caches, the lazy lift of a prefix and the reuse of lifts between rounds are not modelled, a lift being a function of the address.
- The bitmaps behind the visited and claimed addresses and the walk's own decodes are sets; the channels that carry references and bodies to their threads, and the cutting of the listing into parts, are not modelled.
- The edges out of a block are kept sorted as they are added, where the program sorts them once the block is walked.
- Analyses started early on another thread, and the analyzers themselves.
- Names of functions and symbols, and the prologue patterns of the sweep: the addresses to try are given.
- CallSiteSound.SitesHold: that a load from a frame slot brings what was last stored in it is assumed of the run, since nothing the tracker reads rules out a store to the slot through another address.
- BlockFlowEntries.KeyedStartHasBlock: of a lift that wraps only this direction is proved; the walk keyed by address also walks from the empty state blocks after the wrap that are reached by running on only, which the last block before it covers.
- PreciseConstants.FoundWhereKnown: of lifts whose addresses increase; of those that wrap `PreciseConstants.FoundByFlow` says it by the blocks of the flow.
- The unsigned reciprocal `magic_u32`, the linear constant walk, and the other analyzers of the crate.
- Arithmetic past the end of the address space, but where a proof names it: addresses are numbers below a limit.
