# Verified model of the RaptorPath erasure codec, its rate mathematics and its simulator

This project models the parts of RaptorPath that decide whether lost data comes back intact, and proves what
they promise for all inputs and all runs.

- **The field** (`Gf256`, `Kernels`): GF(2^8) with the polynomial 0x11D, its tables, and the blocked split-nibble
  kernels, shown to compute what the plain loop computes. `gf256/src/lib.rs:4` calls the polynomial the one AES
  uses; AES uses 0x11B, and the model follows the constant.
- **The coefficient stream and the wire header** (`CoefficientStream`, `Wire`).
- **The generation codec** (`Linear`, `Elimination`, `GenerationDecoding`, `GenerationEncoding`, `EndToEnd`,
  `OrderIndependence`): an encoder with four coding paths over fixed generations, and a decoder that keeps one
  reduced row echelon system per anchor and width and feeds each recovered source into all the others. `Linear` is
  the plain linear algebra the decoder is compared with: spans, combinations and solutions of a list of equations.
- **The sliding-window codec** (`TermLists`, `SlidingEncoding`, `SlidingWindow`, `SlidingRun`) and the simplified
  codec of the simulator (`SimpleRlc`), both sparse and cascading.
- **The success probability** (`FecSuccess`): the two-buffer dynamic program over an interleaved wire, compared
  with the sum over all state sequences of the two-state loss chain.
- **The simulator** (`SimulationState`, `SimulationBooks`, `SimulationSlots`, `Simulation`): one tick of multipath FEC
  and ARQ with feedback queues, retransmits, repairs, give-up and the source store, as a chain of wire slots.
- **Two estimators** (`Changepoint`, `GilbertElliott`).

Objects of the program whose methods update fields are classes here, with ghost fields for what their invariants speak
of: the equations a slot accepted, everything ever returned, the history of symbols or batches. The main statements
are those of the table below; a reader in a hurry should start with `GenerationDecoder.DecodedExactly`,
`OrderIndependence.OrderMattersExactly`, `EndToEnd.Run`, `Elimination.FeedRow`, `GenerationDecoder.AddSymbol`,
`SlidingRun.Run`, `FecSuccess.PFecExact`, `Simulation.Step`, `Simulation.Run`, `RlcDecoder.FeedRepair`,
`Kernels.MulAccSlice`, `BayesianChangepoint.ResidueIsInert` and `GilbertElliottEstimator.CountersBounded`.

How the pieces of the program appear here:

- Floating-point numbers are exact reals. Machine integers are unbounded, with the bounds that keep the program
  from wrapping as preconditions: generation size and window length below 2^16, coded index below 2^31, sequence
  numbers below 2^64. The generator's state is a 64-bit vector and does wrap.
- Vector registers are byte sequences; the 16-bit lane shift is written out bit by bit.
- Rows and slots of the generation decoder are values that its methods replace; its maps, sets and cursors are
  fields. Where the program iterates over a hash map, the model takes any order.
- The duplicate filter for source symbols is a set that may refuse to record a new member, as the program's
  bounded bitmap may.
- In the simulator, the controller's rate, the goodput estimates, the loss-belief draws, the completion debt and
  the give-up age of a tick are inputs of the tick, and the channel of a path is any sequence of losses. All
  results hold for every choice of them.
- In the changepoint detector the exponential of a sum of multiples of logarithms is the product of powers that it
  stands for, with the same floor of 1e-300 under each base.

Four results differ from what a reader of the program might expect:

- `BayesianChangepoint.update` comments its underflow branch as a reset, but the branch sets run length zero to
  one and leaves the other masses in place. The default detector reaches it with a first batch of a thousand symbols
  received (`Changepoint.ResetLeavesResidue`): the masses then exceed one. They do so exactly when the evidence was at
  most 1e-300 and the hazard below one, and never by more than 1e-300. For a positive hazard the residue is inert: by
  `BayesianChangepoint.ResidueIsInert` every later update and the predictive mean are, after any history, those of a
  filter that restarts altogether.
- `set_code_base` clamps to a range that is empty when an acknowledgement has run ahead of the newest source and
  something older than it is retained by then; clamping to an empty range panics. `GenerationEncoder.ClampDefined` says
  exactly when the range is not empty; `GenerationEncoding.ClampUndefined` is an instance where it is;
  `EndToEnd.Run` makes the call only when it is not.
- The placeholder of an idle encoder carries the index that the next repair will carry. If that repair is over source 0
  alone, the decoder's duplicate filter takes the two for the same symbol, and the one that comes second is dropped.
  This is the only way two symbols of one encoder are mistaken for each other
  (`OrderIndependence.MistakenOnlyForPlaceholder`), and two symbols yield the same in either order exactly when it
  does not happen (`OrderIndependence.InEitherOrder`; `OrderIndependence.PlaceholderFirst` is an instance where it
  does). For any list of symbols, all orders of arrival yield the same exactly when no repair is shadowed like that, or
  source 0 comes out without the shadowed ones (`OrderIndependence.OrderMattersExactly`).
- The comment at `raptorpath-wasm/src/lib.rs:1587-1589` says that the occupancy seen through the frontier is never below
  the real one. `Simulation.StoreExact` proves it when no path is slower than the aggregate round trip, as on one path,
  and bounds the shortfall otherwise; `Simulation.SlowPathFallsShort` is a lossless run of five ticks on two paths that
  does fall short.

## Model

| member | source | states |
|---|---|---|
| Gf256.MulIsPolyMul | gf256/src/lib.rs:46-56 | The product through logarithms is the polynomial product modulo 0x11D, for every pair of bytes. |
| Gf256.ExpOrder | gf256/src/lib.rs:14-34 | The generator has order 255: no smaller positive power of it is one. |
| Gf256.ExpOfLog | gf256/src/lib.rs:14-38 | Every nonzero byte is the power of the generator its logarithm names, and the logarithm is below 255. |
| Gf256.LogOfExp | gf256/src/lib.rs:14-38 | The logarithm of a power below 255 is its exponent: the tables are mutually inverse. |
| Gf256.MulAssociates | gf256/src/lib.rs:46-56 | Multiplication is associative. |
| Gf256.MulDistributes | gf256/src/lib.rs:40-56 | Multiplication distributes over exclusive or. |
| Gf256.InvIsInverse | gf256/src/lib.rs:58-65 | The table inverse of a nonzero byte is its multiplicative inverse. |
| Kernels.GenTables | gf256/src/lib.rs:14-34 | Repeated doubling fills both tables with exactly the powers and the logarithms. |
| Kernels.MulAccScalar | gf256/src/lib.rs:144-152 | The scalar loop adds coeff times src to dst on its range and touches nothing else. |
| Kernels.MulScalar | gf256/src/lib.rs:155-166 | The scalar loop stores coeff times src on its range and touches nothing else. |
| Kernels.XorScalar | gf256/src/lib.rs:137-141 | The scalar loop adds src to dst on its range and touches nothing else. |
| Kernels.BuildMulTables | gf256/src/simd.rs:13-21 | The two 16-entry tables hold the products of the coefficient with every low and every high nibble. |
| Kernels.ShiftedNibble | gf256/src/simd.rs:33-51 | After the 16-bit lane shift and the mask every byte holds its own high nibble, in spite of the bits leaking in from its neighbour. |
| Kernels.ProductIs | gf256/src/simd.rs:33-51 | Two shuffles and an exclusive or multiply every byte of a register by the tables' coefficient. |
| Kernels.MulAccSsse3 | gf256/src/simd.rs:28-51 | The 16-byte kernel and its scalar tail accumulate coeff times src for every length and nonzero coefficient. |
| Kernels.MulSliceSsse3 | gf256/src/simd.rs:54-72 | The 16-byte kernel and its scalar tail store coeff times src, and leave dst beyond the shorter slice alone. |
| Kernels.XorAccSsse3 | gf256/src/simd.rs:75-90 | The 16-byte kernel and its tail add src to dst. |
| Kernels.MulAccAvx2 | gf256/src/simd.rs:97-137 | The 32-byte kernel with its 16-byte remainder and scalar tail accumulates exactly what the scalar loop does. |
| Kernels.MulSliceAvx2 | gf256/src/simd.rs:140-170 | The 32-byte kernel with its 16-byte remainder and scalar tail stores exactly what the scalar loop does. |
| Kernels.XorAccAvx2 | gf256/src/simd.rs:173-197 | The 32-byte kernel with its remainder and tail adds src to dst. |
| Kernels.MulAccSlice | gf256/src/lib.rs:170-184 | Whatever the processor, coefficient and lengths, dst gains coeff times src, including coefficients 0 and 1. |
| Kernels.MulSlice | gf256/src/lib.rs:186-201 | Whatever the processor, dst becomes coeff times src; beyond src only coefficient 0 writes, and coefficient 1 needs dst to be long enough. |
| CoefficientStream.ZeroByteGetsCloser | gf256/src/lib.rs:217-232 | A zero draw moves the state strictly closer to a fixed state whose byte is nonzero, so the redraw loop ends from every 64-bit state. |
| CoefficientStream.SplitMix64.NextNonzeroU8 | gf256/src/lib.rs:225-232 | Returns the byte of the first state from here on whose byte is nonzero, and stops there. |
| CoefficientStream.MixUndone | gf256/src/lib.rs:217-223 | The output function of the generator has an inverse, so different states draw different words. |
| CoefficientStream.WindowCoefficients | gf256/src/lib.rs:236-247 | There are as many coefficients as sources in the window, none of them zero; `IndicesDiffer`, `StartsDiffer` and `KnownAnswers` say which stream they are. |
| CoefficientStream.GenerateWindowCoefficients | gf256/src/lib.rs:236-247 | The loop produces the specified coefficients: as many as the window has sources, none of them zero. |
| CoefficientStream.IndicesDiffer | gf256/src/lib.rs:236-247 | Different repair indices below 2^32 seed different states for the same window, and their first words differ. |
| CoefficientStream.StartsDiffer | gf256/src/lib.rs:236-247 | So do different window starts below 2^64 for the same count and index. |
| CoefficientStream.KnownAnswers | gf256/src/lib.rs:217-247 | The coefficients of three windows, byte for byte, one of them with a redrawn zero. |
| Wire.ParseEncode | raptorpath/src/fec/generation.rs:221-251 | A full-width header parses back to its anchor, width and index, and the coded bytes follow it. |
| Wire.ParseEncodeFilling | raptorpath/src/fec/generation.rs:1132-1154 | A filling header parses back to its fields, the flag and the coded width included. |
| Wire.HeaderBytes | raptorpath/src/fec/generation.rs:221-251 | Byte by byte, a header holds the anchor, the count and the index in 8, 2 and 4 bytes, each with its least significant byte first. |
| Wire.InertParsesToNothing | raptorpath/src/fec/generation.rs:434-449 | The all-zero placeholder of an idle encoder is never taken for an equation. |
| Elimination.ForwardReduce | raptorpath/src/fec/generation.rs:872-892 | Reduction by known columns and pivots clears them all and changes the row only by rows of the system. |
| Elimination.DependentIffReducedToZero | raptorpath/src/fec/generation.rs:894-898 | A row reduces to zero exactly when it was a combination of the equations accepted before. |
| Elimination.EliminateColumn | raptorpath/src/fec/generation.rs:906-922 | The Gauss-Jordan step clears the pivot column in exactly the rows that have it, and reports them. |
| Elimination.UnitSweep | raptorpath/src/fec/generation.rs:928-965 | No unit row survives the sweep: each becomes a known column and a delivered payload, and the solutions stay the same. |
| Elimination.FeedRow | raptorpath/src/fec/generation.rs:872-971 | One equation keeps the system reduced and equivalent to all accepted equations; it is new rank exactly when independent of them, the rank then grows by one, and a full rank finishes the slot at once. |
| Elimination.KnownExactly | raptorpath/src/fec/generation.rs:827-972 | A column is known exactly when its unit vector is in the span of the accepted equations. |
| Elimination.SolvingIsShort | raptorpath/src/fec/generation.rs:967-970 | A slot that is still solving has rank below its width. |
| GenerationDecoding.GenerationDecoder.constructor | raptorpath/src/fec/generation.rs:805-818 | A new decoder is empty and satisfies the invariant. |
| GenerationDecoding.GenerationDecoder.OpenSlot | raptorpath/src/fec/generation.rs:834-870 | A row is ignored exactly when its slot is done or every source it spans is already held; else the slot starts from the sources already held. |
| GenerationDecoding.GenerationDecoder.InsertEquation | raptorpath/src/fec/generation.rs:827-972 | The equation joins its slot's accepted equations; deliveries are the newly held sources of its span, and all other slots stay as they are. |
| GenerationDecoding.GenerationDecoder.InjectSource | raptorpath/src/fec/generation.rs:1000-1037 | Afterwards every live slot over the source knows it, and what that delivers is the only thing still unknown elsewhere. |
| GenerationDecoding.GenerationDecoder.Propagate | raptorpath/src/fec/generation.rs:1056-1067 | The work list terminates, and in the end a column of any live slot is known exactly when its source is held. |
| GenerationDecoding.GenerationDecoder.AddRepair | raptorpath/src/fec/generation.rs:1127-1180 | The repair's equation is accepted unless its slot needs no more, and it counts as useful exactly when it is independent of the slot's equations. |
| GenerationDecoding.GenerationDecoder.AddSymbolInner | raptorpath/src/fec/generation.rs:1085-1180 | Foreign and duplicate symbols change nothing that is decoded; every other symbol is counted, and used as a source or an equation. |
| GenerationDecoding.GenerationDecoder.AddSymbol | raptorpath/src/fec/generation.rs:1184-1194 | Returns exactly the newly recovered sources at or above the floor, each once and none returned before; a true symbol teaches nothing untrue, and nothing is recovered that the equations received so far do not force. |
| GenerationDecoding.GenerationDecoder.Advance | raptorpath/src/fec/generation.rs:1199-1235 | The floor never falls; no slot with a source at or above it goes and every other slot does; and no payload goes that a remaining slot's known column needs. |
| GenerationDecoding.GenerationDecoder.DecodedExactly | raptorpath/src/fec/generation.rs:827-972 | Between calls, a source in a live slot is held if and only if the slot's accepted equations determine it. |
| GenerationDecoding.HeldIsSaturated | raptorpath/src/fec/generation.rs:1000-1125 | Between calls, no slot's received equations determine a source that is not held, given those that are; so nothing that can be decoded slot by slot is missing. |
| GenerationDecoding.GenerationDecoder.RankIn | raptorpath/src/fec/generation.rs:1237-1252 | The reported rank is at most the count, and equals it exactly when the whole span is decoded. |
| GenerationEncoding.GenerationEncoder.constructor | raptorpath/src/fec/generation.rs:129-157 | Sizes and depth are at least one, the overhead is not negative, the mode is the one asked for, nothing is sent, and the floors allow the clamp. |
| GenerationEncoding.GenerationEncoder.BudgetMeans | raptorpath/src/fec/generation.rs:165-175 | Coded-only, a generation of n sources is below budget exactly while its symbols are fewer than n (1 + overhead); with the sources themselves on the wire, while they are fewer than n overhead. |
| GenerationEncoding.GenerationEncoder.ProvidedCovers | raptorpath/src/fec/generation.rs:165-206 | A coded-only generation that asks for no more has had at least as many repairs as it has sources. |
| GenerationEncoding.Provision | raptorpath/src/fec/generation.rs:129-449 | A coded-only or systematic encoder given one generation's sources and asked until it wants no more gives the least number of repairs not below n (1 + overhead) or n overhead, numbered from zero, all over the full generation. |
| GenerationEncoding.RepairIsTrue | raptorpath/src/fec/generation.rs:221-251 | A combination of padded sources with the header's coefficients is a true equation about the sources. |
| GenerationEncoding.GenerationEncoder.AddSource | raptorpath/src/fec/generation.rs:602-621 | The padded source joins the retained ones and is sent under the next sequence number. |
| GenerationEncoding.GenerationEncoder.IsCodeable | raptorpath/src/fec/generation.rs:186-206 | True exactly for a generation begun, sealed, and below its budget. |
| GenerationEncoding.GenerationEncoder.WantsCoding | raptorpath/src/fec/generation.rs:585-593 | True exactly when some generation in the pipeline is codeable. |
| GenerationEncoding.GenerationEncoder.NextActiveGen | raptorpath/src/fec/generation.rs:295-321 | The cyclic scan finds a codeable generation whenever there is one, from any cursor, takes the first it comes by, and leaves the cursor behind it. |
| GenerationEncoding.GenerationEncoder.GenerationSymbols | raptorpath/src/fec/generation.rs:270-282 | The longest contiguous retained prefix of the generation, in order. |
| GenerationEncoding.GenerationEncoder.CodeGeneration | raptorpath/src/fec/generation.rs:212-251 | One symbol over the retained span, counted against the generation, under a fresh index. |
| GenerationEncoding.GenerationEncoder.GenerateRepair | raptorpath/src/fec/generation.rs:434-449 | Emits a real symbol exactly when coding is wanted, else the placeholder, byte for byte. A real one spans a sealed generation between the floors and the end of the pipeline, full unless intake is idle, that had fewer symbols than its sources and the overhead ask for; a placeholder means that no such generation is left. |
| GenerationEncoding.GenerationEncoder.GenerateRepairFor | raptorpath/src/fec/generation.rs:474-493 | Codes exactly a retained, sealed generation at its anchor, whatever its budget, over its full width unless intake is idle. |
| GenerationEncoding.GenerationEncoder.SealedSpansAll | raptorpath/src/fec/generation.rs:186-251 | A sealed generation is coded over its full width unless intake is idle. |
| GenerationEncoding.GenerationEncoder.WantsFillingCoding | raptorpath/src/fec/generation.rs:464-472 | True exactly when some generation in the pipeline, sealed or not, is below budget. |
| GenerationEncoding.GenerationEncoder.NextFillGen | raptorpath/src/fec/generation.rs:401-420 | The filling pacer's cyclic scan misses no eligible generation and takes the first it comes by. |
| GenerationEncoding.GenerationEncoder.CodeGenerationFull | raptorpath/src/fec/generation.rs:350-394 | Codes the retained prefix at the full matrix width and says in the header how wide the prefix is. |
| GenerationEncoding.GenerationEncoder.GenerateRepairFilling | raptorpath/src/fec/generation.rs:451-462 | Emits a real filling symbol exactly when some generation of the pipeline, sealed or not, has fewer symbols than its sources so far and the overhead ask for; else the placeholder. |
| GenerationEncoding.GenerationEncoder.GenerateRepairRange | raptorpath/src/fec/generation.rs:623-657 | Codes exactly the asked range when all of it is retained, and otherwise emits nothing. |
| GenerationEncoding.GenerationEncoder.Advance | raptorpath/src/fec/generation.rs:525-546 | Drops exactly the generations before the acknowledged one, whole, with their budgets. The retention floor becomes the acknowledged generation; the coding floor and the cursor only move up. |
| GenerationEncoding.GenerationEncoder.SetCodeBase | raptorpath/src/fec/generation.rs:552-565 | The coding floor moves to the anchor's generation, kept between the retention floor and the newest generation, and never back. |
| GenerationEncoding.GenerationEncoder.ClampDefined | raptorpath/src/fec/generation.rs:552-565 | The clamp's range is nonempty exactly when nothing is retained or the retention floor has not passed the newest source. |
| GenerationEncoding.ClampUndefined | raptorpath/src/fec/generation.rs:552-565 | An acknowledgement ahead of the first source leaves the clamp an empty range. |
| GenerationEncoding.GenerationEncoder.GetSource | raptorpath/src/fec/generation.rs:567-575 | Exactly the retained sources can be had again, byte for byte. |
| EndToEnd.Run | raptorpath/src/fec/generation.rs:221-657 | For every sequence of encoder calls, and every loss, duplication, reordering and decoder advance, each delivery is the padded source with its number, and none comes twice. |
| OrderIndependence.FeedAll | raptorpath/src/fec/generation.rs:1085-1194 | Given any sequence of symbols, a new decoder delivers exactly the least set of sources that holds those received raw and is closed under what the equations determine, of equally labelled repairs the first one counting; true symbols give true payloads. |
| OrderIndependence.MoreReceived | raptorpath/src/fec/generation.rs:1000-1067 | With unambiguous labels, more received never means less recovered. |
| OrderIndependence.Rearranged | raptorpath/src/fec/generation.rs:1085-1194 | Two decoders given the same unambiguously labelled symbols, in whatever order and however often, deliver the same sources, and for true symbols the same payloads; the one given fewer delivers no source the other does not. |
| OrderIndependence.MistakenOnlyForPlaceholder | raptorpath/src/fec/generation.rs:434-462 | Among symbols of one encoder the duplicate filter mistakes one for another exactly when a placeholder meets a repair of its index, and that repair is over source 0 alone. |
| OrderIndependence.OrderMattersExactly | raptorpath/src/fec/generation.rs:1085-1194 | For symbols of one encoder, all orders of arrival have the same outcome if and only if no placeholder shadows a repair or source 0 comes out without the shadowed ones. |
| OrderIndependence.FromOneEncoder | raptorpath/src/fec/generation.rs:1085-1194 | However the symbols of one encoder arrive and repeat, only true payloads come out, and the same ones unless the order matters in that sense. |
| OrderIndependence.InEitherOrder | raptorpath/src/fec/generation.rs:1085-1194 | Two symbols of one encoder yield the same sources in either order if and only if neither is a placeholder that shadows the other; if one is, placeholder first yields nothing and repair first yields source 0. |
| OrderIndependence.PlaceholderFirst | raptorpath/src/fec/generation.rs:1089-1100 | An instance: placeholder and then repair yield nothing, repair and then placeholder the source. |
| SlidingEncoding.RlcWindowEncoder.AddSource | raptorpath/src/fec/rlc_window.rs:55-67 | The padded source joins the window under the next number. |
| SlidingEncoding.RlcWindowEncoder.GenerateRepair | raptorpath/src/fec/rlc_window.rs:98-140 | A repair over the whole window, under the next index, is a true equation about it; an empty window gives a placeholder that reads as nothing. |
| SlidingEncoding.RlcWindowEncoder.GenerateRepairRange | raptorpath/src/fec/rlc_window.rs:142-190 | A true equation over exactly the range, precisely when the window covers all of it. |
| SlidingEncoding.RlcWindowEncoder.Advance | raptorpath/src/fec/rlc_window.rs:199-207 | Drops the sources below the number and no others. |
| SlidingEncoding.RlcWindowEncoder.GetSource | raptorpath/src/fec/rlc_window.rs:213-230 | Exactly the sources in the window can be had again. |
| SlidingWindow.RlcWindowDecoder.InsertEquation | raptorpath/src/fec/rlc_window.rs:303-395 | A true equation teaches only true things. When the stored rows leave nothing of it, nothing changes; one unknown left is recovered; several become one row on the smallest, scaled, and every other row stays. |
| SlidingWindow.RlcWindowDecoder.DropPivots | raptorpath/src/fec/rlc_window.rs:325-348 | Eliminating the pivots named at the start keeps exactly the equation's meaning. |
| SlidingWindow.RemainingNamesNone | raptorpath/src/fec/rlc_window.rs:325-348 | None of those pivots is left or comes back, because a row's columns lie above its pivot; only a pivot that elimination brings in can remain. |
| SlidingWindow.RlcWindowDecoder.SubstituteAll | raptorpath/src/fec/rlc_window.rs:402-451 | After a source was substituted no row mentions it; exactly the rows it solves leave the table, each for a new recovered source; what was true stays true. |
| SlidingWindow.RlcWindowDecoder.Cascade | raptorpath/src/fec/rlc_window.rs:399-451 | The cascade terminates; the rows that remain are those of the sources still unknown, each with exactly its columns still unknown; and everything recovered comes out, true, with the payload that is held. |
| SlidingWindow.RlcWindowDecoder.AddSymbol | raptorpath/src/fec/rlc_window.rs:542-552 | Whatever it recovers at or above the floor is returned, with the payload held; each number is returned at most once ever and never below the floor; a true symbol teaches only true things. |
| SlidingWindow.RlcWindowDecoder.Advance | raptorpath/src/fec/rlc_window.rs:557-584 | Every map and filter keeps exactly its keys at or above the floor, and no row or column is left below it. |
| SlidingWindow.RlcWindowDecoder.RankIsBounded | raptorpath/src/fec/rlc_window.rs:586-597 | The reported rank of a span is at most its length. |
| SlidingRun.Run | raptorpath/src/fec/window_traits.rs:147-161 | For every run of the window encoder and any subset and order of its symbols, with any advances, every delivery is the true source with its number, none comes twice, and what the decoder holds at or above its last floor is exactly what it delivered there. |
| SimpleRlc.RlcEncoder.AddSource | raptorpath-math/src/rlc.rs:30-38 | The padded source joins the window under the next number. |
| SimpleRlc.RlcEncoder.GenerateRepair | raptorpath-math/src/rlc.rs:41-58 | The repair is a true equation over the whole window. |
| SimpleRlc.RlcEncoder.Advance | raptorpath-math/src/rlc.rs:73-77 | Drops the sources below the number and no others. |
| SimpleRlc.RlcDecoder.FeedSource | raptorpath-math/src/rlc.rs:146-157 | A source seen before changes nothing; a new one is recovered first, and the invariant bounds recovered sources and rows by symbols fed. |
| SimpleRlc.RlcDecoder.DropKnown | raptorpath-math/src/rlc.rs:185-193 | Moving known sources into the data keeps exactly the equation's meaning. |
| SimpleRlc.RlcDecoder.Reduce | raptorpath-math/src/rlc.rs:195-214 | Eliminating the pivots once in insertion order leaves none of them, because rows are triangular in that order. |
| SimpleRlc.RlcDecoder.InsertEquation | raptorpath-math/src/rlc.rs:182-240 | The state afterwards says exactly what the state before and the equation say together. When known sources and the stored rows leave nothing of it, nothing changes; one unknown left is recovered; several become one more row on the first, scaled. |
| SimpleRlc.RlcDecoder.FeedRepair | raptorpath-math/src/rlc.rs:160-180 | The same for a repair, with the bound of recovered sources and rows by symbols fed kept. |
| SimpleRlc.RlcDecoder.Cascade | raptorpath-math/src/rlc.rs:242-281 | The cascade terminates with no row mentioning a recovered source; the only meaning lost is that of the row whose pivot the first source was. |
| FecSuccess.RepairStep | raptorpath-math/src/lib.rs:1144-1146 | Slot by slot, the repairs among the first i slots are the largest number whose N-fold does not exceed i R. |
| FecSuccess.RepairEnds | raptorpath-math/src/lib.rs:1144-1146 | All R repairs are on the wire by its end. |
| FecSuccess.MassStep | raptorpath-math/src/lib.rs:1147-1159 | The mass of paths with a given deficit and state one slot later is what the transfer step moves there. |
| FecSuccess.ClipsNeverBind | raptorpath-math/src/lib.rs:1152-1157 | The cell that the saturating subtraction or the minimum would clip is always empty. |
| FecSuccess.Sweep | raptorpath-math/src/lib.rs:1144-1160 | One pass turns the table of slot i into the table of slot i + 1, every cell exactly. |
| FecSuccess.Stationary | raptorpath-math/src/lib.rs:1139-1160 | At every slot the bad state has mass p / (p + q) and all mass together is one. |
| FecSuccess.SharesSumToOne | raptorpath-math/src/lib.rs:1162-1163 | Success and failure add up to one, so the final clamp does nothing. |
| FecSuccess.AllPathsComplete | raptorpath-math/src/lib.rs:1119-1128 | The reference sum runs over every state sequence. |
| FecSuccess.AllPathsDistinct | raptorpath-math/src/lib.rs:1119-1128 | The reference sum counts no state sequence twice. |
| FecSuccess.PFecExact | raptorpath-math/src/lib.rs:1129-1164 | The program computes the sum, over all state sequences of the wire's slots, of the stationary chain's path probability where source losses do not exceed surviving repairs. For probabilities in range the chain turns bad with p_gb and good with q_bg, the wire has r W repairs to the nearest one, and one source without repairs succeeds with q / (p + q). |
| FecSuccess.SmallWires | raptorpath-math/src/lib.rs:1129-1164 | In closed form, one source without repairs gets through with q / (p + q), and with one repair unless both are lost: 1 - p / (p + q) (1 - q). |
| FecSuccess.ClampedAlike | raptorpath-math/src/lib.rs:1131-1135 | Probabilities out of range give the result of the nearest ones in range, and a negative rate that of none. |
| FecSuccess.SuccessOverSlots | raptorpath-math/src/lib.rs:1119-1128 | The state before the first slot, which the program starts from, sums out: the sum with it is the sum over the slots' states alone. |
| FecSuccess.FinalMeanDeficit | raptorpath-math/src/lib.rs:1144-1160 | The mean final deficit is W eps - R (1 - eps). |
| FecSuccess.ComputeRStarExact | raptorpath-math/src/lib.rs:1172-1183 | The rate meets the target whenever the ceiling does, and is the ceiling otherwise; one search step below it the target was missed. No monotonicity is assumed. |
| Simulation.Simulation.constructor | raptorpath-wasm/src/lib.rs:1002-1137 | At most eight paths, each with the given channel, a capacity of 1 to 16 and a round trip of at least two ticks, and books that balance. |
| Simulation.OneWayIsHalf | raptorpath-wasm/src/lib.rs:940-941 | When all round trips are the same, the one-way delay is half of it, whatever the capacities. |
| Simulation.Candidate | raptorpath-wasm/src/lib.rs:1209-1219 | The first open symbol whose own path's clock has run, and none exactly when there is none. |
| Simulation.BestCorrectionPath | raptorpath-wasm/src/lib.rs:608-622 | The first of the spare paths with the highest goodput; path 0 when none is spare. |
| Simulation.Simulation.NextSourcePath | raptorpath-wasm/src/lib.rs:628-651 | Each spare path's credit grows by its share and the path with the most, the first of several, pays one, so the credits' sum stays; with no spare path, path 0 pays. |
| SimulationSlots.SharesAreProportional | raptorpath-wasm/src/lib.rs:628-641 | Two spare paths share in the ratio of their goodputs. |
| Simulation.Simulation.CollectFeedback | raptorpath-wasm/src/lib.rs:1152-1180 | Each path's queue loses exactly the leading acknowledgements a round trip old; the store shrinks by exactly the source acknowledgements among them. |
| Simulation.Simulation.MarkRecovered | raptorpath-wasm/src/lib.rs:962-975 | Exactly the open symbols named are closed, and the store shrinks by exactly their number. |
| Simulation.Simulation.RecordDelivery | raptorpath-wasm/src/lib.rs:940-960 | Each delivered source not given up joins the list of latencies with the ticks since it was sent plus the one-way delay, and keeps the first one by number. |
| Simulation.Simulation.SendRepair | raptorpath-wasm/src/lib.rs:903-934 | One repair goes on the path's wire; when it arrives, the decoder absorbs the equation over the last sources, up to the window's width, under the next index, and exactly what that recovers is closed. |
| Simulation.Simulation.Retransmit | raptorpath-wasm/src/lib.rs:1230-1278 | A lost resend moves only the symbol's clock and path; an arriving one makes its source known and closes it, with whatever else becomes known. |
| Simulation.Simulation.SendSource | raptorpath-wasm/src/lib.rs:1309-1376 | A new source takes a store slot and is open when lost; when it arrives it is decoded at once, with whatever follows from it; the debt accrues, capped. |
| Simulation.Simulation.RunSlot | raptorpath-wasm/src/lib.rs:1204-1397 | One slot is used as its scene and the inputs call for: a confirmed retransmit of the first eligible loss on the best path, else a repair owed, else a source on the path whose turn it is, a stall on a full pool, or nothing; and the scene that follows is what that use makes of it. |
| Simulation.Simulation.RunSlots | raptorpath-wasm/src/lib.rs:1202-1397 | A tick is the chain of its slots, one scene more than the paths have capacity, each neighbouring pair joined by the slot that the inputs call for. No path sends more than its capacity; with nothing to correct, nothing lost and room for them, every slot carries a source that then waits. |
| SimulationSlots.OneUse | raptorpath-wasm/src/lib.rs:1204-1397 | A scene and its inputs call for one use, and what the decoder then knows settles everything else. |
| SimulationSlots.EverySlotCounts | raptorpath-wasm/src/lib.rs:1200-1397 | Over any tick every slot sends a repair, a source again or a new source, or stalls, or else all sources have been sent; and whatever was sent took one spare slot. |
| SimulationSlots.RepairsArePaidFor | raptorpath-wasm/src/lib.rs:1287-1363 | Over any tick the repairs sent and the debt left never exceed the debt before and what the sources accrue, and equal it unless the cap of eight is reached. |
| SimulationSlots.FirstSlot | raptorpath-wasm/src/lib.rs:1204-1290 | A confirmed loss whose clock has run is sent again in the first slot, and is known after the tick unless it is lost again; with none, a repair that is owed is sent. |
| Simulation.Simulation.GiveUp | raptorpath-wasm/src/lib.rs:1399-1422 | Below full reliability exactly the open symbols older than the cut are closed as given up. |
| Simulation.Simulation.MarkArrived | raptorpath-wasm/src/lib.rs:1424-1437 | Exactly the arrived symbols a round trip of their path old are marked. |
| Simulation.Simulation.CheckFinish | raptorpath-wasm/src/lib.rs:1439-1452 | Finishes when every source is sent and delivered or given up, and otherwise only past the tick limit. |
| Simulation.Simulation.AdvanceFrontier | raptorpath-wasm/src/lib.rs:1495-1500 | The frontier ends at the first source that is neither delivered nor given up. |
| Simulation.Simulation.RecordFrontier | raptorpath-wasm/src/lib.rs:1501-1511 | The sender's view becomes the newest recorded frontier that is an aggregate round trip old. |
| Simulation.Simulation.Prune | raptorpath-wasm/src/lib.rs:1513-1515 | Exactly open or recent symbols remain, and the clock moves on. |
| Simulation.Simulation.Step | raptorpath-wasm/src/lib.rs:1139-1522 | A finished simulation does not move. Otherwise the tick is the chain of its slots between taking the due feedback in and resolving what is old, under the inputs given: a confirmed loss is sent again, a repair owed is sent, no open loss is older than the cut; the books stay balanced, and a settled simulation finishes. |
| Simulation.Simulation.DeliveryConserved | raptorpath-wasm/src/lib.rs:1204-1452 | In every reachable state delivered, given up and open sources partition the sent ones, and the counters are their sizes. |
| Simulation.Simulation.StoreExact | raptorpath-wasm/src/lib.rs:1582-1592 | The occupancy is exactly the waiting source acknowledgements plus the open losses, within the pool. It exceeds the frontier's gap by at most what waits on paths slower than the aggregate clock, so not at all when there is none. |
| Simulation.SlowPathFallsShort | raptorpath-wasm/src/lib.rs:1582-1592 | A run of five ticks, without losses, on a path slower and one faster than the aggregate clock, after which the occupancy exceeds the frontier's gap. |
| Simulation.Simulation.InformationBound | raptorpath-wasm/src/lib.rs:1793-1804 | No more sources are decoded than symbols arrived, and all sends are sources, repairs or retransmits. |
| Simulation.Simulation.LossesAreTheChannels | raptorpath-wasm/src/lib.rs:564-569 | In every reachable state a path has sent what its three counters say, and lost exactly what its channel loses of so many. |
| Simulation.Simulation.OverheadFloor | raptorpath-wasm/src/lib.rs:1776-1812 | At full delivery the overhead is at least the realized floor, stated without the divisions. |
| Simulation.Simulation.DecodedIsTrue | raptorpath-wasm/src/lib.rs:1309-1373 | Every decoded symbol is the source that was sent under its number, eight bytes of that number modulo 256. |
| Simulation.Simulation.SettledIsComplete | raptorpath-wasm/src/lib.rs:1439-1452 | A run that stops before the tick limit has every source delivered or given up. |
| Simulation.Run | raptorpath-wasm/src/lib.rs:1139-1522 | Over every run: the counters balance, the store stays in its pool, nothing is decoded for free, full reliability that finishes in time delivers everything, and every run ends by the tick limit. |
| Changepoint.PosteriorGrows | raptorpath-math/src/changepoint.rs:179-192 | The statistics of a run one batch longer are the shorter run's with the batch added. |
| Changepoint.BayesianChangepoint.constructor | raptorpath-math/src/changepoint.rs:90-107 | All mass is at run length zero and every run length has the prior. |
| Changepoint.BayesianChangepoint.GrowRuns | raptorpath-math/src/changepoint.rs:149-158 | Every run but the longest grows by one with the survival share of its mass; the rest restarts. |
| Changepoint.BayesianChangepoint.Normalize | raptorpath-math/src/changepoint.rs:168-177 | With enough evidence the masses are divided by it and add up to one; else only run length zero is set to one. |
| Changepoint.BayesianChangepoint.Shift | raptorpath-math/src/changepoint.rs:179-192 | In place, each run length takes the statistics of the one before with the batch added. |
| Changepoint.LikelihoodIsFraction | raptorpath-math/src/changepoint.rs:128-146 | Under every statistics a batch has positive probability at most one. |
| Changepoint.SingleSymbols | raptorpath-math/src/changepoint.rs:128-146 | Under pseudo-counts alpha and beta one received symbol has probability alpha / (alpha + beta) and one lost symbol beta / (alpha + beta), where these are not below the floor. |
| Changepoint.Independent | raptorpath-math/src/changepoint.rs:128-146 | The probability of a batch is the product of those of its received and its lost symbols. |
| Changepoint.EvidenceMoves | raptorpath-math/src/changepoint.rs:128-192 | Received symbols strictly lower the predicted loss rate, and lost ones strictly raise it. |
| Changepoint.BayesianChangepoint.Predict | raptorpath-math/src/changepoint.rs:126-147 | The loop finds the batch's probability under every run length that carries mass, and zero for the others. |
| Changepoint.BayesianChangepoint.Reweigh | raptorpath-math/src/changepoint.rs:125-177 | The new masses redistribute the joint ones and add up to one exactly when the evidence exceeds 1e-300 or the hazard is one, and else exceed one by at most 1e-300. |
| Changepoint.BayesianChangepoint.Update | raptorpath-math/src/changepoint.rs:120-195 | Over any history of batches: run length r holds the prior plus the last r + 1 batches, and the masses are the joint ones divided by their evidence, exactly the hazard at run length zero, unless the evidence is at most 1e-300. |
| Changepoint.EvidencePositive | raptorpath-math/src/changepoint.rs:148-168 | Some run length carries mass and gives the batch positive probability, so the evidence is never zero. |
| Changepoint.BayesianChangepoint.ResidueIsInert | raptorpath-math/src/changepoint.rs:120-254 | After any history, with a positive hazard, there is a true distribution, that of a filter that restarts altogether, with the same joint masses under any likelihood and the same carrying run lengths; the masses exceed it by at most 1e-300. |
| Changepoint.UnlikelyBatch | raptorpath-math/src/changepoint.rs:110-146 | A thousand symbols received and none lost have probability below 1e-300 under the flat prior. |
| Changepoint.ResetLeavesResidue | raptorpath-math/src/changepoint.rs:110-177 | After that first batch the default detector's masses add up to more than one, by less than 1e-300. |
| Changepoint.BayesianChangepoint.PredictiveMean | raptorpath-math/src/changepoint.rs:235-254 | The mean is the mass-weighted mean of the run lengths' loss rates, so between any two rates that bracket them; some run length always carries mass, so the fallback is never taken. |
| Changepoint.BayesianChangepoint.ChangepointProbability | raptorpath-math/src/changepoint.rs:257-263 | The mass of the five shortest run lengths, in every reachable state. |
| GilbertElliott.TotalWeight | raptorpath-math/src/gilbert_elliott.rs:97-112 | The four decayed transition counts add up to 1000 (1 - 0.999^n), for every history. |
| GilbertElliott.Alternation | raptorpath-math/src/gilbert_elliott.rs:97-112 | Bursts are entered and left alternately: the two decayed counts differ by at most one, with the sign the state gives. |
| GilbertElliott.TransitionsAreDecayedCounts | raptorpath-math/src/gilbert_elliott.rs:90-112 | Each counter is the number of times that its second outcome followed its first, each decayed by 0.999 for every later symbol; the history starts after a received one. |
| GilbertElliott.ScaleIsConsistent | raptorpath-math/src/gilbert_elliott.rs:130-163 | At every scale, lossy spans are at most the spans, and the moments obey the Cauchy-Schwarz inequality. |
| GilbertElliott.ScaleIsDecayedSums | raptorpath-math/src/gilbert_elliott.rs:130-163 | At every scale, over the spans of so many blocks, each decayed by 0.999 for every later one: the sums of ones, of lossy ones, of losses and of their squares. |
| GilbertElliott.GilbertElliottEstimator.RecordSymbol | raptorpath-math/src/gilbert_elliott.rs:90-124 | After any history the state, the counters, the ring and the moments are those of the history. |
| GilbertElliott.GilbertElliottEstimator.CompleteMassBlock | raptorpath-math/src/gilbert_elliott.rs:130-163 | The block joins the ring, and the spans that end with it are folded into every scale. |
| GilbertElliott.GilbertElliottEstimator.RingSum | raptorpath-math/src/gilbert_elliott.rs:144-150 | Walking the ring backwards sums exactly the last m completed blocks. |
| GilbertElliott.GilbertElliottEstimator.CountersBounded | raptorpath-math/src/gilbert_elliott.rs:97-112 | In every reachable state the counters weigh less than 1000, and entered and left bursts balance to within one. |
| GilbertElliott.GilbertElliottEstimator.ProbGoodToBad | raptorpath-math/src/gilbert_elliott.rs:171-177 | The decayed share of departures from the good state that enter a burst, once they weigh one; a probability. |
| GilbertElliott.GilbertElliottEstimator.ProbBadToGood | raptorpath-math/src/gilbert_elliott.rs:180-186 | The decayed share of departures from the bad state that leave it, once they weigh one; a probability. |
| GilbertElliott.GilbertElliottEstimator.MeanBurstLength | raptorpath-math/src/gilbert_elliott.rs:190-196 | Departures from the bad state per exit, at least one; one when exits are vanishingly rare. |
| GilbertElliott.GilbertElliottEstimator.ConditionalLossRate | raptorpath-math/src/gilbert_elliott.rs:200-211 | The decayed share of departures from the current state that lead to a loss. |
| GilbertElliott.GilbertElliottEstimator.Stats | raptorpath-math/src/gilbert_elliott.rs:223-238 | The reported moments are the sums divided by their counts, or zero without lossy spans; the clamp does nothing, and the squared mean is at most the mean square. |

## Left out

- Completeness and rank of the two sparse decoders: they are sound but keep less than they could. The sliding
  decoder replaces a row when the smallest column left is a pivot that elimination brought in, and both cascades drop
  the row whose pivot arrives; `RlcDecoder.Cascade` says exactly what is lost in the simple one.
- Order independence across decoder advances: what is pruned depends on when.
- Filling symbols fed to the sliding decoder: it does not know the flag; the program pairs them with the
  generation decoder only.
- `lost_pending` as an exact count: a retransmit may decrement it twice. It is kept, but no result depends on it.
- Floating-point rounding, and all transcendental formulas (normal, Poisson and Weibull tails, the controller's
  rate, the give-up age, quantiles): such values are inputs.
- The estimators inside the simulator, phantom-retransmit counters, jitter and the last-tick display counters: they
  feed back into a tick only through the inputs.
- The legacy completion burst (`raptorpath-wasm/src/lib.rs:1380-1393`), which adds to the debt once, above the cap that
  `SendSource` states for the accrual.
- Machine-integer wrap-around of sequence numbers and counters: preconditions exclude it.
- CPU feature detection and unaligned loads; the processor kind is a parameter of the dispatchers.
- `checked_inv`, `frontier_probe`, `seq_probe`, `window_span` and the other one-branch queries; runtime gauges,
  configuration, routing, transport, logging and the command line: they would only add easy members.
- Buffer sharing: payload buffers are values, so reuse of storage between rows and returned data is not modelled.
