# A verified model of the bzip2 and zlib codecs of this repository

The repository carries bzip2 1.0.6 (`dep/bzip2`) and zlib 1.2.8 (`dep/zlib`). This project models

- the whole bzip2 codec in memory: run-length layer, both block sorts, move-to-front and RUNA/RUNB
  coding, Huffman tables, the bit stream, the call-level machines `BZ2_bzCompress` and
  `BZ2_bzDecompress` for any split of input and output into calls, both decoder forms (fast and small),
  and the one-call forms on top of them;
- the match finder of `deflate.c` up to the tallied literals and pairs;
- the CRC-32 and Adler-32 checksums of zlib with their fast forms and combine functions.

The source changes arrays and fields step by step, and so does the model: objects are classes
(`Compressor`, `Decoder`, `Deflate`, `Writer`, `Reader`, `TwoLevelList`, `Builder`, `Output`), buffers are
arrays, loops are loops. Each method is proved against a definition on values, and the laws are proved
about those definitions.

Check everything with `dafny verify dfyconfig.toml`.

## Main results

1. **Round trip.** When `BZ2_bzCompress`, called in any way with any buffer sizes, reports the end of the
   stream, the bytes it has delivered decode to exactly the bytes it has consumed
   (`Compressor.Compressor.Compress`). What `GetStream`, the meaning of a stream, says is what
   `BZ2_bzDecompress` delivers, in any pieces (`Decompressor.Decoder.Decompress`). `BuffToBuff.RoundTrip`
   joins the two: with `StreamSize.Enough` bytes of room a text is always packed and comes back, and a full
   buffer always holds the beginning of a complete stream. Blocks that an old encoder has randomised are
   decoded as well.
2. **Block sort.** `fallbackSort` and `mainSort`, with quadrant cache, three-way quicksort and pointer
   scanning, sort all cyclic rotations of every block; their stacks stay in bounds, and the internal
   assertions 1001 to 1007 cannot fail. Any sorted
   order gives the same last column, and the walk from `origPtr` spells the block, periodic blocks
   included.
3. **Huffman codes.** Length assignment ends for every frequency vector with Kraft sum exactly one, and no
   prefix code is cheaper for the weights, scaled as often as the limit on lengths asked for
   (`HuffmanOptimal.TreeCheapest`, `HuffmanLengths.MakeCodeLengths`). The tables of a block are what four
   rounds of improvement give. Canonical codes are inverted bit by bit.
4. **Resumable decoding.** Stopping at any read and resuming is the same as decoding in one go. The text
   given in front of a fault, or of missing input, is exact; refusals are final and the error code is exact
   (`DecoderOutcome.StreamOutcome`, `BuffToBuff.BuffToBuffDecompress`).
5. **DEFLATE tokens.** For any flushes, pieces of input and window slides the tokens expand to the text.
   Each is what the search promises: the longest match among the candidates visited, which are all strings
   of the same key in reach, newest first, up to the length of chain configured
   (`Deflater.Deflate.LongestMatch`, `Deflater.NothingMissed`). Leaving out the third comparison is justified
   by the invariant of the hash chains.
6. **Checksums.** Every fast form equals the definition, the definition is that of the programs' own
   constants (`CrcNumbers.RunIsSteps`), and combining is right for all strings.
7. **Room.** The bits of a block with header and trailer fit behind it in `arr2`, where the source writes
   them without a check, and an encoder's selectors fit the decoder's arrays; the exact condition for the
   decoder's own store is stated.

## How it is laid out

| part | modules |
|---|---|
| bytes, permutations, rotations, sorting | `Bytes`, `Permutations`, `Counting`, `Rotations`, `RotationRank`, `QuickSort3`, `Buckets`, `FallbackSort`, `QuadrantOrder`, `MainSimpleSort`, `MainQSort3`, `PointerScan`, `MainSort` |
| inverse transform | `InverseBwt`, `BwtDecoder` |
| symbols | `MoveToFront`, `MtfEncoder`, `MtfDecoder`, `BlockBuilder` |
| Huffman codes | `Powers`, `HuffmanHeap`, `HuffmanTree`, `HuffmanOptimal`, `HuffmanLengths`, `HuffmanCodes`, `TableChoice` |
| bits and format | `BitStrings`, `BitWriter`, `BitReader`, `BlockFormat`, `BlockWriter`, `BlockEncoder`, `BlockSize`, `StreamFormat`, `StreamHeader` |
| compressing | `RunLength`, `CompressorState`, `Compressor`, `Completion`, `StreamSize` |
| decompressing | `DecoderSteps`, `DecoderRuns`, `DecoderOutcome`, `DecoderText`, `RandTable`, `Randomised`, `TextOutput`, `Decompressor`, `BuffToBuff` |
| checksums | `CrcRegister`, `CrcNumbers`, `BlockChecksum`, `ZlibCrc`, `Adler` |
| DEFLATE matches | `RollingHash`, `Lz77`, `MatchFinder`, `HashChains`, `Deflater` |

## Where code and comments differ

- `dep/bzip2/blocksort.c:1056-1062` says that the stream does not depend on which sort ran. What holds is
  that the last column does not (`InverseBwt.LastColumnUnique`); where rotations are equal, as in a
  periodic block, `origPtr` is only fixed up to the order of the equal ones.
- `dep/bzip2/blocksort.c:957-985` gives the quadrant entries a strict reading. They order rotations weakly:
  rotations that are equal may have different entries (`QuadrantOrder.Cached`).
- `dep/bzip2/compress.c:138-139` speaks of fewer or equal symbols than block bytes; with the end-of-block
  symbol there may be one more. The writing place still never passes the reading place, counted in
  halfwords (`MtfEncoder.GenerateMtfValues`).
- `dep/bzip2/bzlib.c:1279-1294`: an empty source with no room for output is answered with the sequence
  error, not with a full buffer (`BuffToBuff.BuffToBuffCompress`).
- `dep/bzip2/decompress.c:289-299` stores as many selectors as the 15-bit count says, in arrays of
  `BZ_MAX_SELECTORS`, 18002 entries. The store stays in bounds for all input bits exactly when the count is
  at most 18002 (`BlockSize.StoreInBounds`); the source takes every count from 1 to 32767
  (`BlockSize.AnyCountTaken`), of which its own encoder writes at most 18001 (`BlockSize.SelectorsFit`).
- `dep/zlib/adler32.c:77-86`: a single byte added to a starting value with a half of 65521 or more may leave
  a second sum out of range; `Adler.Adler32` says exactly when.

## Model

| member | source | states |
|---|---|---|
| BuffToBuff.RoundTrip | dep/bzip2/bzlib.c:1247-1349 | with at least Enough bytes of room the text is packed and comes back byte for byte; whatever was packed in less room comes back as well, with either decoder and room for just the text |
| BuffToBuff.BuffToBuffCompress | dep/bzip2/bzlib.c:1247-1295 | the parameter error exactly for the arguments named; the sequence error exactly for an empty source with no room; success means one complete stream for the source, all blocks but the last full, each with the tables four rounds give, and its first bytes written out; a full buffer means that the bytes given begin a longer complete stream for the source; with Enough bytes of room the answer is success |
| BuffToBuff.FullIsCut | dep/bzip2/bzlib.c:1280-1294 | a finish that stopped for want of room: there is a complete stream for the whole source that begins with the bytes given and is longer |
| BuffToBuff.NotCutShort | dep/bzip2/bzlib.c:1280-1294 | bytes that are a stream cut short are fewer than Enough |
| BuffToBuff.CompressedDecodes | dep/bzip2/bzlib.c:1247-1349 | a compressed text, read from its bytes alone, ends with exactly that text |
| StreamSize.StreamLength | dep/bzip2/bzlib.c:288-403 | a stream whose blocks but the last are full is at most Enough bytes long: 21 bits for every byte after run-length coding, 60835 for every block, header, trailer and padding |
| StreamSize.BlocksLength | dep/bzip2/compress.c:602-667 | all blocks together: 21 bits for every byte of theirs and 60835 for each, and the bytes at most 5 for 4 of the text |
| StreamSize.CountBound | dep/bzip2/bzlib.c:382-391 | as many full blocks as there are take that many times the block size |
| StreamSize.PackedLength | dep/bzip2/bzlib.c:216-247 | run-length coding makes no text longer than by a quarter |
| StreamSize.StreamBegins | dep/bzip2/compress.c:616-667 | the first bytes of every complete stream, written out: BZh, the level and the magic number of a block, or, for no text, the fourteen bytes of an empty stream |
| Completion.Completes | dep/bzip2/bzlib.c:360-403 | every state of a finish, whatever room was lacking, can be run on to the end: a complete stream for all its input that begins with the output so far |
| Completion.CompletesWhole | dep/bzip2/bzlib.c:360-403 | the stream it can be run on to has all blocks but the last full |
| Completion.SomeEncoding | dep/bzip2/compress.c:602-667 | every block has a sound encoding |
| Completion.SomeOrder | dep/bzip2/blocksort.c:1015-1030 | the rotations of every block can be sorted |
| BuffToBuff.BuffToBuffDecompress | dep/bzip2/bzlib.c:1299-1349 | for every byte string and every size: success with the text exactly when the string holds a stream whose text fits; buffer full, with the first destLen bytes, exactly when the text in front of the end, of the missing input or of the fault leaves no room to reach it; else unexpected end for missing input and a data error for a fault, the magic error if and only if the header is wrong |
| Compressor.Compressor.Compress | dep/bzip2/bzlib.c:407-465 | in every reachable state and for every action: a call out of turn is refused and changes nothing; STREAM_END is answered exactly when the mode becomes idle, and then all bytes delivered so far decode to exactly all bytes consumed, with fewer than 8 bits to spare; a completed flush has every byte consumed in closed blocks; blocks are closed only when full, or when a flush or finish has taken all input, and each has the tables four rounds give; a call that stops short has no room left; the codes returned say which progress was possible |
| Compressor.Compressor.HandleCompress | dep/bzip2/bzlib.c:360-403 | terminates, keeps the invariant and the books of input and output, and stops only for one of four reasons: no room, stream over, flush complete, no input; progress is reported exactly when bytes moved; the blocks closed are full, but for the one that a flush or finish forces |
| Compressor.Compressor.Round | dep/bzip2/bzlib.c:364-400 | one round of the loop: output, a new block, input, and the block closed if it is due, with nothing skipped |
| Compressor.Compressor.ContinueRun | dep/bzip2/bzlib.c:419-425 | a run call takes input until there is none or no room, and answers with the error exactly if nothing moved |
| Compressor.Compressor.ContinueFlush | dep/bzip2/bzlib.c:437-445 | a flush is over exactly when all input offered is in closed blocks and delivered, and until then stops only for want of room |
| Compressor.Compressor.ContinueFinish | dep/bzip2/bzlib.c:447-461 | a finish is over exactly when the trailer is delivered, and until then stops only for want of room |
| Compressor.Compressor.constructor | dep/bzip2/bzlib.c:148-211 | a new compressor satisfies the invariant with nothing consumed and nothing written |
| Compressor.Compressor.CopyInputUntilStop | dep/bzip2/bzlib.c:288-329 | input is taken from the front until the block is full or none is left; the invariant holds with those bytes consumed |
| Compressor.Compressor.CopyOutputUntilStop | dep/bzip2/bzlib.c:333-357 | output is delivered in order until the room or zbits is used up |
| Compressor.Compressor.AddCharToBlock | dep/bzip2/bzlib.c:260-284 | both paths of the macro, fast and general, are the step AddChar |
| Compressor.Compressor.AddPairToBlock | dep/bzip2/bzlib.c:216-247 | block, marks and checksum after a run is written are those of the step AddPair |
| Compressor.Compressor.FlushRunLength | dep/bzip2/bzlib.c:252-256 | the pending run, if any, goes into the block and none is left pending |
| Compressor.Compressor.PrepareNewBlock | dep/bzip2/bzlib.c:117-126 | a fresh block after everything delivered has been put on the record |
| Compressor.Compressor.CompressBlock | dep/bzip2/compress.c:602-667 | the block and, at the end, the trailer are appended to the bits of the stream, so that the invariant holds with one more closed block; the trailer is written at most once; the bytes written fit behind the block in arr2 |
| Compressor.Compressor.CloseFull | dep/bzip2/bzlib.c:388-391 | a block closed for being full always leaves a run pending and never ends the stream |
| Compressor.Compressor.FlushAndClose | dep/bzip2/bzlib.c:382-386 | the block closed by a flush or finish takes the pending run with it; the stream ends exactly for a finish, with output still to deliver |
| Compressor.FlowTransitive | dep/bzip2/bzlib.c:407-465 | input taken and output given add up over any number of steps |
| Compressor.FlowStill | dep/bzip2/bzlib.c:452-455 | a call that reports no progress has consumed and delivered nothing |
| Compressor.StuckEmpty | dep/bzip2/bzlib.c:452-455 | a finish call that cannot progress with input left has taken input before |
| CompressorState.AddCharKeeps | dep/bzip2/bzlib.c:260-329 | taking one byte keeps the invariant: closed blocks, then the block, then the pending run, un-run-lengthed, are the bytes consumed; every byte of the block is marked in use and no other; nblock stays within 100000*blockSize100k - 15 before a flush |
| CompressorState.AddPairKeeps | dep/bzip2/bzlib.c:216-247 | writing the pending run keeps block, marks and checksum in step with the bytes they stand for, and adds at most 5 bytes |
| CompressorState.FlushKeeps | dep/bzip2/bzlib.c:252-256 | flushing the pending run keeps the account of all bytes consumed |
| CompressorState.FullLeavesPending | dep/bzip2/bzlib.c:388-391 | when the block is full a run is pending, so the exit test of a finish cannot fire early |
| CompressorState.CloseKeeps | dep/bzip2/compress.c:602-667 | closing a block, with or without the trailer, keeps the whole invariant: the bits written are header, closed blocks and, once, the trailer |
| CompressorState.CloseGrows | dep/bzip2/bzlib.c:378-391 | the block closed is a full one, or the last of a flush or finish |
| CompressorState.CloseFits | dep/bzip2/compress.c:616-667 | header, block and trailer, after up to 32 bits held over, take no more bits than the bytes of arr2 behind the block have |
| BlockSize.EncodingLength | dep/bzip2/compress.c:632-653 | a block of n bytes is coded in at most 21 n + 60835 bits, whatever tables and selectors were chosen |
| BlockSize.SelectorsFit | dep/bzip2/bzlib_private.h:125 | every sound encoding has fewer than BZ_MAX_SELECTORS selectors |
| BlockSize.StoreInBounds | dep/bzip2/decompress.c:289-299 | for every count: no input bits make the decoder store a selector behind its array if and only if the count is at most BZ_MAX_SELECTORS |
| BlockSize.AnyCountTaken | dep/bzip2/decompress.c:286-314 | every count from 1 to 32767 is read as it stands, with that many selectors |
| CompressorState.DeliverKeeps | dep/bzip2/bzlib.c:333-357 | handing bytes over keeps the record of what has been delivered |
| CompressorState.PrepareKeeps | dep/bzip2/bzlib.c:117-126 | starting a new block when all of zbits is delivered keeps the invariant |
| CompressorState.EndDecodes | dep/bzip2/bzlib.c:452-461 | with the trailer out and zbits drained, the delivered bytes are a stream that decodes to everything consumed |
| CompressorState.StartInv | dep/bzip2/bzlib.c:148-211 | the state after initialisation satisfies the invariant |
| RunLength.UnRlePacked | dep/bzip2/bzlib.c:216-247 | un-run-lengthing undoes run-length coding, for every sequence of maximal runs of 1 to 255 bytes |
| RunLength.UnRleRun | dep/bzip2/bzlib.c:759-801 | the decoder takes exactly one coded run off the front |
| RunLength.PackedSnoc | dep/bzip2/bzlib.c:216-284 | adding a run that cannot be joined to the last one appends its coded form |
| StreamFormat.StreamRoundTrip | dep/bzip2/compress.c:602-667 | a stream of any good blocks, whatever tables, selectors and sort order were chosen, decodes to the texts of its blocks, whatever bits follow |
| StreamFormat.BlocksRoundTrip | dep/bzip2/decompress.c:222-250 | any number of blocks is decoded one after the other, with the combined checksum carried along |
| StreamFormat.ClosedText | dep/bzip2/decompress.c:487-576 | the last column of a closed block, walked and un-run-lengthed, is its text, and its checksum agrees |
| StreamFormat.TrailerRoundTrip | dep/bzip2/decompress.c:582-606 | the trailer is accepted exactly with the combined checksum |
| StreamFormat.ColumnSpells | dep/bzip2/decompress.c:559-574 | the walk along the last column of a sound encoding spells the block |
| BlockFormat.BlockRoundTrip | dep/bzip2/compress.c:632-653 | a block written with any choice of valid tables and selectors is parsed back to the same checksum, origPtr and last column |
| BlockFormat.PayloadRoundTrip | dep/bzip2/compress.c:461-594 | mapping table, selectors, coding tables and symbols are all read back |
| BlockFormat.MappingRoundTrip | dep/bzip2/decompress.c:266-281 | the two-level mapping table is read back to the same 256 flags |
| BlockFormat.SelectorsRoundTrip | dep/bzip2/decompress.c:286-314 | group and selector counts and the move-to-front coded selectors are read back |
| BlockFormat.PlacesInvert | dep/bzip2/decompress.c:302-314 | undoing the move-to-front of the selectors gives the selectors |
| BlockFormat.CodingTablesRoundTrip | dep/bzip2/decompress.c:316-329 | delta-coded lengths of all tables are read back, for lengths 1 to 20 |
| BlockFormat.SymbolsRoundTrip | dep/bzip2/decompress.c:349-486 | what the coded symbols do to the decoder, group by group of 50, is what the plain symbols do |
| BlockFormat.ReadCoded | dep/bzip2/decompress.c:74-102 | one coded symbol is read back |
| BlockFormat.DataRoundTrip | dep/bzip2/decompress.c:349-486 | the coded symbols, decoded and renamed, are the last column |
| BitStrings.BitsRoundTrip | dep/bzip2/compress.c:71-78 | a number written as n bits is read back |
| BitStrings.GetPut | dep/bzip2/decompress.c:43-65 | the next n bits after writing a number are that number, and what follows is untouched |
| BitWriter.Writer.W | dep/bzip2/compress.c:71-78 | exactly the n bits of v are appended, across byte boundaries of the 32-bit buffer, and bytes already out stay |
| BitWriter.Writer.Finish | dep/bzip2/compress.c:44-54 | the last byte is filled with fewer than 8 zero bits and all bits are out as bytes |
| BitWriter.Writer.PutByte | dep/bzip2/compress.c:58-67 | the eight oldest bits become one byte and no bit is lost |
| BitWriter.ByteBitsAppend | dep/bzip2/compress.c:58-67 | bytes one after the other are their bits one after the other |
| BitReader.Reader.Get | dep/bzip2/decompress.c:43-65 | the next n bits of the input, or, when it is short, all input taken in with no bit lost, so that the read can be resumed |
| BitReader.Reader.Fetch | dep/bzip2/decompress.c:55-63 | a byte moves from the input to the word and the unread bits stay the same |
| BlockEncoder.PutUInt32 | dep/bzip2/compress.c:81-89 | a word is written as its 32 bits, highest first |
| BlockWriter.SendMapping | dep/bzip2/compress.c:494-515 | appends the bits of the mapping table |
| BlockWriter.SelectorMtf | dep/bzip2/compress.c:461-478 | the shifting search gives the place of each selector in a move-to-front list |
| BlockWriter.SendSelectors | dep/bzip2/compress.c:517-526 | appends the bits of the selector section |
| BlockWriter.SendTables | dep/bzip2/compress.c:528-542 | appends the bits of all delta-coded tables |
| BlockWriter.SendCodes | dep/bzip2/compress.c:544-594 | appends the codes of all symbols, 50 to a group, with the table its selector names |
| BlockWriter.AssignAll | dep/bzip2/compress.c:480-492 | every table gets its canonical codes |
| TableChoice.ChooseTables | dep/bzip2/compress.c:239-458 | two to six tables by block length, each a usable code, one selector per 50 symbols, at most 18001 of them, all lengths within 1 to 17; tables and selectors are what exactly four rounds make of the starting tables, where in each round every group selects the first of the cheapest tables before, and every new table is a cheapest code for the symbols of the groups that selected it |
| TableChoice.SelectTables | dep/bzip2/compress.c:323-435 | for every group the first of the cheapest tables is selected, and the counts are exactly the uses of each symbol in groups of each table |
| TableChoice.AllCosts | dep/bzip2/compress.c:352-393 | the packed fast form and the plain form both give the cost of the group with every table |
| TableChoice.PackedCost | dep/bzip2/compress.c:359-386 | two 16-bit costs summed in one word never run into each other |
| TableChoice.Cheapest | dep/bzip2/compress.c:395-405 | the first place with the least cost |
| TableChoice.InitialTables | dep/bzip2/compress.c:279-317 | each starting table costs nothing on one of consecutive ranges of symbols and 15 elsewhere; every range is the shortest that reaches its share of what the ranges before it leave, less one symbol for every other one of those in between |
| TableChoice.RebuildTables | dep/bzip2/compress.c:444-452 | every rebuilt table is a usable code within 17 bits, and a cheapest one for the counts of its groups, scaled as often as 17 bits asked for |
| HuffmanLengths.MakeCodeLengths | dep/bzip2/huffman.c:63-148 | terminates for every frequency vector of block size; every length lies in 1..maxLen and the Kraft sum is exactly one; no lengths of any size with Kraft sum at most one, the lengths of prefix codes, cost less for the weights, which are the frequencies with zero counted as one, scaled by w -> 1 + w/2 as often as a cheapest code had a word longer than maxLen, and no more often |
| HuffmanOptimal.TreeCheapest | dep/bzip2/huffman.c:84-121 | Huffman's theorem: in a tree made by joining two lightest nodes at a time, the depths of the leaves fill the code space exactly, and no lengths with Kraft sum at most one cost less |
| HuffmanOptimal.Best | dep/bzip2/huffman.c:100-110 | the same at every stage of the making of the tree, for the nodes that are roots then |
| HuffmanOptimal.Join | dep/bzip2/huffman.c:100-110 | from any code in which the two lightest nodes are separate, one in which they are joined, cheaper by at least their weight |
| HuffmanOptimal.Exchange | dep/bzip2/huffman.c:100-110 | giving the longer code to the lighter of two nodes keeps a code and makes it no dearer |
| HuffmanOptimal.Shorten | dep/bzip2/huffman.c:114-121 | if all codes but one are at most l long, that one can do with l too |
| HuffmanOptimal.TreeFits | dep/bzip2/huffman.c:100-121 | the leaves of a finished tree fill the code space exactly, at whatever stage of its making the roots are looked at |
| HuffmanTree.DepthBelowHeight | dep/bzip2/huffman.c:82-121 | no leaf is deeper than the height kept in the weight of the root |
| HuffmanLengths.BuildTree | dep/bzip2/huffman.c:84-112 | one tree over all leaves with 2n-1 nodes, made by always joining two lightest roots; a tree of height h weighs at least the h-th Fibonacci number |
| HuffmanLengths.MeasureDepths | dep/bzip2/huffman.c:114-121 | lengths are leaf depths, and tooLong says exactly whether one exceeds the limit |
| HuffmanLengths.ScaleWeights | dep/bzip2/huffman.c:142-146 | the total weight shrinks strictly, or it was at most twice the size of the alphabet |
| HuffmanLengths.TooLongIsHeavy | dep/bzip2/huffman.c:114-123 | a code that is too long means the total weight exceeds twice the alphabet, so scaling makes progress |
| HuffmanTree.HeightBound | dep/bzip2/huffman.c:82-123 | by the Fibonacci bound a tree of total weight up to 516 is at most 12 high, and one of block size at most 32 |
| HuffmanLengths.MergeLightest | dep/bzip2/huffman.c:100-110 | one merging round joins two lightest roots and keeps the forest, its weights and the Fibonacci bounds |
| HuffmanHeap.UpHeap | dep/bzip2/huffman.c:33-42 | sifting up restores the heap order on the same members |
| HuffmanHeap.DownHeap | dep/bzip2/huffman.c:44-59 | sifting down restores the heap order on the same members |
| HuffmanHeap.TakeLightest | dep/bzip2/huffman.c:101-102 | a lightest member is taken and the rest is a heap |
| HuffmanHeap.RootLightest | dep/bzip2/huffman.c:33-59 | the root of an ordered heap is lightest |
| HuffmanCodes.SymbolRoundTrip | dep/bzip2/decompress.c:74-102 | for every code with Kraft sum at most one and lengths 1 to 20, reading the code of s bit by bit against limit, base and perm stops after exactly length[s] bits with s, whatever follows |
| HuffmanCodes.CodesFitIffKraft | dep/bzip2/huffman.c:152-166 | the assigned codes fit their lengths if and only if the Kraft sum is at most one |
| HuffmanCodes.NextIsKraft | dep/bzip2/huffman.c:152-166 | the running code value is the Kraft sum so far in units of the current length |
| HuffmanCodes.LongerAbove | dep/bzip2/huffman.c:152-166 | codes of one length, extended, lie below all longer codes: the code is prefix free |
| HuffmanCodes.SymbolInRange | dep/bzip2/decompress.c:96-101 | for any bits at all a symbol read lies in the alphabet and does not depend on stale entries of perm |
| HuffmanCodes.AssignCodes | dep/bzip2/huffman.c:152-166 | the loops give every symbol its canonical code |
| HuffmanCodes.CreateDecodeTables | dep/bzip2/huffman.c:170-200 | limit, base and perm describe the canonical code for every length |
| MoveToFront.FeedSymbols | dep/bzip2/compress.c:163-228 | the decoder recovers what was coded, for every list, pending run and following symbols |
| MoveToFront.FeedRun | dep/bzip2/decompress.c:379-398 | reading the bijective base-2 digits of n adds n times the current weight to the run |
| MtfEncoder.GenerateMtfValues | dep/bzip2/compress.c:120-231 | the symbols of the last column and their counts, written over the pointer array without ever clobbering a pointer not yet read |
| MtfEncoder.SymbolsInvert | dep/bzip2/decompress.c:375-486 | decoding the symbols of a last column and renaming ranks to bytes gives the last column |
| MtfEncoder.WriteStep | dep/bzip2/compress.c:174-206 | a 16-bit symbol written below the reading place leaves all later pointers intact |
| MtfEncoder.MoveFront | dep/bzip2/compress.c:189-207 | the register loop finds the byte and moves it to the front |
| MtfEncoder.MakeMapsEncode | dep/bzip2/compress.c:105-115 | each byte in use gets its rank among the bytes in use |
| MtfEncoder.MakeMapsDecode | dep/bzip2/decompress.c:26-36 | the bytes in use in order, the rest of the table staying bytes |
| MtfDecoder.TwoLevelList.Take | dep/bzip2/decompress.c:423-474 | for every index the two-level list of sixteen lists in a 4096-byte arena gives the entry and becomes the list that plain move-to-front gives |
| MtfDecoder.TwoLevelList.Init | dep/bzip2/decompress.c:358-369 | the arena starts as the identity list |
| MtfDecoder.TwoLevelList.Lift | dep/bzip2/decompress.c:463-472 | moving all lists back to the top, in place, loses nothing |
| MtfDecoder.LiftStep | dep/bzip2/decompress.c:464-471 | each byte moved up overwrites none still to be moved |
| MtfDecoder.PassStep | dep/bzip2/decompress.c:455-460 | handing the last entry of one list to the next keeps the lists apart and their entries |
| MtfDecoder.SlidingApart | dep/bzip2/decompress.c:454-462 | bases stay inside the arena and a list apart while sliding, so that no write meets an entry still in use |
| MtfDecoder.HoldsUnique | dep/bzip2/decompress.c:423-474 | an arena holds at most one list |
| BlockBuilder.Builder.Symbol | dep/bzip2/decompress.c:375-486 | one symbol does to the last column, its counts and the list exactly what it does to a plain list, runs of any length included; refusals agree too |
| BlockBuilder.Builder.Start | dep/bzip2/decompress.c:349-372 | a block begins with the identity list and zero counts |
| BlockBuilder.Builder.FlushRun | dep/bzip2/decompress.c:398-415 | a run is written out if and only if it fits the block |
| MtfDecoder.FillRun | dep/bzip2/decompress.c:399-415 | es copies of the front byte, counted, or refusal when the block would overflow |
| Rotations.SortedOrdersAgree | dep/bzip2/blocksort.c:1015-1030 | any two weakly sorted orders of one block hold equal rotations place by place |
| Rotations.CompareIsLexicographic | dep/bzip2/blocksort.c:345-469 | the step-by-step comparison is the lexicographic order of whole rotations |
| Rotations.CompareSplit | dep/bzip2/blocksort.c:259-313 | comparing d+e characters is comparing d and then the next e: the law behind doubling |
| Rotations.EqualRotationsStep | dep/bzip2/blocksort.c:345-469 | equal rotations have equal successors |
| InverseBwt.WalkSpellsBlock | dep/bzip2/decompress.c:559-574 | for every block and every weakly sorted order, periodic blocks included, following the successor links from origPtr spells the block |
| InverseBwt.LastColumnUnique | dep/bzip2/blocksort.c:1083-1086 | the last column does not depend on how equal rotations were ordered |
| InverseBwt.StepBackSorted | dep/bzip2/decompress.c:559-564 | stepping every rotation of a sorted order back by one and restoring the bucket order gives a sorted order again |
| Counting.SlotsPermutation | dep/bzip2/decompress.c:524-534 | placing entries bucket by bucket is a permutation |
| FallbackSort.Sort | dep/bzip2/blocksort.c:211-329 | every rotation once, in weak lexicographic order, for every non-empty block; and the block bytes it destroyed are rebuilt |
| FallbackSort.Pass | dep/bzip2/blocksort.c:261-313 | one doubling pass: buckets equal on h characters become exactly the buckets equal on 2h; with none left the order is final |
| FallbackSort.AssignClasses | dep/bzip2/blocksort.c:266-271 | classes order rotations as their characters h to 2h do |
| FallbackSort.FindOther | dep/bzip2/blocksort.c:277-290 | the word-skipping scan finds the first bit of the other value and never passes the sentinels |
| FallbackSort.RefineBucket | dep/bzip2/blocksort.c:294-305 | sorting a bucket and setting header bits splits it into the classes equal on 2h characters |
| FallbackSort.Rebuild | dep/bzip2/blocksort.c:320-327 | the block is rebuilt from the first column alone |
| FallbackSort.PlaceRotations | dep/bzip2/blocksort.c:236-241 | the radix sort puts every rotation in the bucket of its first character |
| FallbackSort.ColumnOfSorted | dep/bzip2/blocksort.c:320-327 | every sorted order has the same first column |
| QuickSort3.Sort | dep/bzip2/blocksort.c:92-180 | the range is sorted by class and only rearranged within itself; the explicit stack never reaches 99 entries for any block, so assertion 1004 cannot fail |
| QuickSort3.Split | dep/bzip2/blocksort.c:132-170 | three-way partition by any key: all equal, or three ordered parts of which the outer two are smaller |
| QuickSort3.SimpleSort | dep/bzip2/blocksort.c:30-59 | insertion sort with gaps 4 and 1 sorts the range |
| QuickSort3.HalvingDepth | dep/bzip2/blocksort.c:172-178 | sizes that halve from entry to entry bound the stack by 21 |
| QuickSort3.HalvingPush | dep/bzip2/blocksort.c:172-178 | pushing the larger part first keeps the sizes halving |
| QuadrantOrder.MainGtU | dep/bzip2/blocksort.c:345-469 | with a right cache, true is answered only if rotation 1 is at least rotation 2 and false only if it is at most: equal rotations may get either answer; every unit of the budget taken stands for eight equal characters more, after the first twelve |
| QuadrantOrder.UpdateQuadrants | dep/bzip2/blocksort.c:989-1004 | after a big bucket is sorted its cache entries order its rotations again, the copy behind the end included, entries stay 16 bits wide, and other buckets keep theirs |
| QuadrantOrder.CachedAgain | dep/bzip2/blocksort.c:973-1001 | ranks within a sorted bucket, shifted to 16 bits, order equal characters rightly |
| RotationRank.RankOrder | dep/bzip2/blocksort.c:345-469 | comparing ranks is comparing rotations |
| MainSimpleSort.SimpleSort | dep/bzip2/blocksort.c:479-560 | unless the budget runs out, shell sort sorts rotations that agree on d characters; the budget is only touched if two different rotations agree on twenty characters |
| MainQSort3.Sort | dep/bzip2/blocksort.c:620-717 | unless the budget runs out, the range is sorted by rotation; the explicit stack never reaches 98 entries for any block, so assertion 1001 cannot fail; the budget is only touched if two different rotations agree on twenty characters |
| MainQSort3.DepthBound | dep/bzip2/blocksort.c:702-715 | pushing the largest of three parts first bounds the stack |
| MainQSort3.PartsOrdered | dep/bzip2/blocksort.c:655-715 | the three parts of a partition by one character are ordered by rotation |
| PointerScan.CopyOrder | dep/bzip2/blocksort.c:918-944 | scanning a sorted big bucket from both ends puts every small bucket whose second character it is in order, without a comparison; all other places keep their rotations; assertion 1007 holds, in its second form only for a block of one character |
| PointerScan.StepFilled | dep/bzip2/blocksort.c:923-934 | placing the rotation before the scanned one keeps all that is known of the scan |
| PointerScan.Room | dep/bzip2/blocksort.c:923-934 | while a rotation of a small bucket is missing there is a free place for it |
| PointerScan.ScansBefore | dep/bzip2/blocksort.c:923-934 | when both scans have met, the rotation before every known rotation of the big bucket is placed, unless its bucket was finished before |
| PointerScan.UnplacedAll | dep/bzip2/blocksort.c:937-944 | a rotation of two equal characters that the scan leaves out means that the whole block is one character |
| MainSort.MainSort | dep/bzip2/blocksort.c:750-1011 | unless the budget runs out, every rotation once in weak lexicographic order; the block stays; the budget is only touched if two different rotations agree on twenty characters |
| MainSort.Radix | dep/bzip2/blocksort.c:769-829 | every rotation is in the bucket of its first two characters, and ftab holds where each bucket starts |
| MainSort.DealtBuckets | dep/bzip2/blocksort.c:802-829 | filling the buckets backwards is the stable order by two characters |
| MainSort.RunningOrder | dep/bzip2/blocksort.c:837-860 | every big bucket once, the least full first |
| MainSort.SortSmallBuckets | dep/bzip2/blocksort.c:886-909 | every small bucket of ss but that of ss twice is sorted and marked, and no bucket already sorted is disturbed |
| MainSort.CopyAndMark | dep/bzip2/blocksort.c:918-946 | after the scan all small buckets of ss, and all with second character ss, are sorted and marked |
| MainSort.PairOrdered | dep/bzip2/blocksort.c:886-946 | two places are in order unless they are in one small bucket not marked |
| MainSort.BucketFinished | dep/bzip2/blocksort.c:987-996 | a finished big bucket is what the cache update relies on |
| BlockEncoder.TryMainSort | dep/bzip2/blocksort.c:1039-1076 | the main sort gives up only on a block with two different rotations that agree on twenty characters; otherwise all rotations are sorted |
| BlockEncoder.BlockSort | dep/bzip2/blocksort.c:1031-1090 | either sort gives a weakly sorted order of all rotations, whatever the work factor, and origPtr is the place of rotation 0: assertion 1003 cannot fail |
| BlockEncoder.FindOrigPtr | dep/bzip2/blocksort.c:1083-1088 | the first place of rotation 0 |
| BlockEncoder.SendBlock | dep/bzip2/compress.c:630-653 | the bits appended are a sound encoding of exactly this block and checksum, with the tables and selectors that four rounds give for its symbols |
| BwtDecoder.BuildFast | dep/bzip2/decompress.c:559-564 | the packed table holds for every place its character and its successor |
| BwtDecoder.GetFast | dep/bzip2/bzlib_private.h:444-449 | one step: the character of the place and the next place |
| BwtDecoder.SetPacked | dep/bzip2/bzlib_private.h:458-470 | a 20-bit cell is written and the neighbour in the same byte keeps its value |
| BwtDecoder.ReverseCycle | dep/bzip2/decompress.c:536-545 | in-place pointer reversal turns the cycle through origPtr round and touches nothing else |
| BwtDecoder.IndexIntoF | dep/bzip2/bzlib.c:687-698 | the binary search finds the character whose bucket holds the place |
| BwtDecoder.GetSmall | dep/bzip2/bzlib_private.h:475-479 | on the reversed cycle one step gives the same character and next place as the fast table |
| BwtDecoder.MakeCftab | dep/bzip2/decompress.c:494-516 | bucket starts are the running sums, accepted exactly if no count is negative and their sum is at most nblock |
| TextOutput.Output.Begin | dep/bzip2/decompress.c:487-576 | for every tallied last column the range checks pass, and what is then due is the un-run-lengthed walk, up to where a run is cut short if one is, with the flipped bits of a randomised block put right, in the fast and in the small form alike |
| TextOutput.Output.Fast | dep/bzip2/bzlib.c:536-682 | for any output room, stopping and resuming anywhere, randomised or not: bytes given followed by what is due are what was due, and the checksum follows the bytes given, until the room is used up or the block is complete; corruption is reported exactly when a run is cut short and all bytes in front of it fit, of a randomised block with room to spare |
| TextOutput.Output.Small | dep/bzip2/bzlib.c:706-804 | the contract of the fast form holds for the small form, so both give the same bytes, except that a run cut short is reported only with room to spare |
| TextOutput.Output.RunByRun | dep/bzip2/bzlib.c:540-587 | the loop of the randomised branches and of the small form: each run is given out before the next is looked for, with the same contract |
| TextOutput.Output.NextRunFast | dep/bzip2/bzlib.c:632-661 | the next run by look-ahead: what is due, its bytes and whether it is cut short, stays what it was |
| TextOutput.Output.NextRunSmall | dep/bzip2/bzlib.c:775-801 | the next run in the small form: what is due, its bytes and whether it is cut short, stays what it was |
| TextOutput.Output.GetChar | dep/bzip2/bzlib_private.h:442-479 | in either form the range check never fails inside a block and the character is that of the block, under the mask if the block is randomised |
| TextOutput.Output.UnderMask | dep/bzip2/bzlib_private.h:141-149 | one update of the countdown keeps it in step with the bytes taken, and the byte is the one it stands for |
| Randomised.FlippedPlaces | dep/bzip2/bzlib_private.h:137-149 | of every stretch of the table, taken around and around, exactly the last byte but one is flipped |
| Randomised.InStretch | dep/bzip2/bzlib_private.h:137-149 | every byte of a block lies in one of the stretches |
| Randomised.FlippedTwice | dep/bzip2/bzlib_private.h:141-149 | putting the flipped bits right twice changes nothing |
| DecoderRuns.RunEvent | dep/bzip2/decompress.c:195-606 | the machine that can stop at every read, run on a bit string, gives what parsing that string in one go gives, refusals and shortage of input included |
| DecoderSteps.RunSymbols | dep/bzip2/decompress.c:349-486 | stopping possible at every bit, the symbols are those read in one go |
| DecoderSteps.RunCode | dep/bzip2/decompress.c:74-102 | a code read bit by bit with stops is the code read in one go |
| DecoderSteps.NextHeadOk | dep/bzip2/decompress.c:195-347 | every place leads to a place whose saved variables are in range |
| DecoderText.StartOfStream | dep/bzip2/decompress.c:195-250 | a decoder at the start will produce exactly what the stream yields: its text, how it ends, and what is left over |
| DecoderText.BetweenBlocks | dep/bzip2/bzlib.c:832-836 | between blocks it will produce what the remaining blocks yield |
| DecoderText.TellsAfterRead | dep/bzip2/decompress.c:43-65 | a read, wherever the input was cut, leaves what is still to come unchanged; if it finds too little input, the stream so far yields exactly the text given and asks for more |
| DecoderText.TellsMoreInput | dep/bzip2/bzlib.c:808-858 | more input does not change what the state stands for |
| DecoderText.TellsAfterGiving | dep/bzip2/bzlib.c:819-823 | bytes given out move from what is due to what has been given |
| DecoderText.TellsAfterBlock | dep/bzip2/bzlib.c:824-836 | at the end of a block its checksum decides between the next block and refusal |
| DecoderText.TellsCut | dep/bzip2/bzlib.c:822-823 | a block cut short is refused after exactly the bytes in front of the cut |
| DecoderText.TellsBroken | dep/bzip2/bzlib.c:823-831 | after a refusal every continuation of the input is refused after the same text, for the same reason |
| DecoderText.TellsMore | dep/bzip2/bzlib.c:837-838 | with bytes due, what has been given out is not all; with none due and the block cut short it is, and the refusal is still to come |
| DecoderOutcome.StreamOutcome | dep/bzip2/bzlib.c:808-858 | the outcome that counts the text given in front of a fault agrees with the meaning of the stream: it ends exactly when the stream decodes, and is refused or hungry exactly when that is |
| DecoderOutcome.YieldIs | dep/bzip2/bzlib.c:812-840 | the same for the blocks and the trailer |
| StreamHeader.BadHeaderRefused | dep/bzip2/decompress.c:197-209 | a wrong header is refused before any text is given |
| Decompressor.Decoder.Decompress | dep/bzip2/bzlib.c:808-858 | for any pieces of input and output room: the bytes given are a prefix of the text the stream yields; STREAM_END comes exactly with the complete text and leaves what follows unread; an error means that every continuation is refused, after text for which there was room, the magic error exactly when the header is wrong; OK means no room left with text or the refusal of a cut block due, or all input used and all its text given with more input needed |
| Decompressor.Decoder.Read | dep/bzip2/decompress.c:106-641 | reads on until a block is complete, the stream ends, the data are refused or the input runs out; when it runs out all text the input yields has been given |
| Decompressor.Decoder.GiveText | dep/bzip2/bzlib.c:819-838 | text goes out in order until the room is used up, the block is complete, or a run cut short is reached, with room for all in front of it |
| Decompressor.Decoder.EndBlock | dep/bzip2/bzlib.c:824-836 | the checksum is compared and entered into the combined one; a wrong one is refused with all text of the block given |
| Decompressor.Decoder.TakeSymbol | dep/bzip2/decompress.c:375-486 | the stored list, column and counts follow the symbol as the plain decoder does |
| Decompressor.Decoder.constructor | dep/bzip2/bzlib.c:494-526 | a new decoder stands for the whole stream to come |
| StreamHeader.HeaderMove | dep/bzip2/decompress.c:197-209 | a value read in the header moves on exactly if the byte is right; later reads cannot spoil the header |
| BlockChecksum.UpdateSnoc | dep/bzip2/bzlib_private.h:155-172 | one more byte of text is one more step of the block checksum |
| BlockChecksum.ChecksumNumber | dep/bzip2/bzlib_private.h:155-172 | the checksum of a block as a number: from all ones, shifts to the left with 0x04c11db7 added for every bit that leaves set, complement |
| BlockChecksum.CheckValue | dep/bzip2/bzlib_private.h:155-172 | the block checksum of the nine digits 123456789 is 0xfc891918 |
| BlockChecksum.CombineNumber | dep/bzip2/compress.c:608-610 | the combined checksum as a number: rotated to the left by one, the checksum of the block added |
| CrcRegister.UpdateIsBitwise | dep/bzip2/bzlib_private.h:167-172 | the table-driven step is eight single-bit steps of the shift register |
| CrcRegister.RunLinear | dep/bzip2/bzlib_private.h:167-172 | what is in the register beforehand moves along independently of the bytes |
| CrcRegister.ShiftsLinear | dep/zlib/crc32.c:327-352 | shifting the register is linear over GF(2) |
| ZlibCrc.Crc32 | dep/zlib/crc32.c:204-236 | by words in either byte order or byte by byte, for any alignment and length: the checksum of section 8 of RFC 1952 continued over the buffer, as a number: complement, shifts to the right with 0xedb88320 added for every bit that leaves set, complement; 0xcbf43926 from zero over the nine digits 123456789; zero for a null buffer |
| CrcNumbers.PolyIs | dep/zlib/crc32.c:97-110 | the polynomial of the model is the number 0xedb88320 with the bit that leaves lowest, and 0x04c11db7 with it highest |
| CrcNumbers.RunIsSteps | dep/zlib/crc32.c:97-129 | the register of the model, read as a number from either end, is the register of the programs, whatever it holds and whatever bytes follow |
| ZlibCrc.Crc32Bytes | dep/zlib/crc32.c:227-235 | a byte at a time: the same checksum |
| ZlibCrc.Crc32Little | dep/zlib/crc32.c:246-278 | words on a little-endian machine, for any alignment and length, give the same checksum |
| ZlibCrc.Crc32Big | dep/zlib/crc32.c:286-320 | words on a big-endian machine with a byte-swapped register, for any alignment and length, give the same checksum |
| ZlibCrc.TableIs | dep/zlib/crc32.c:118-129 | table k holds each byte followed by k zero bytes |
| ZlibCrc.FourTablesIs | dep/zlib/crc32.c:241-243 | four table lookups are thirty-two steps of the register |
| ZlibCrc.FourTablesBigIs | dep/zlib/crc32.c:281-283 | four lookups in the byte-swapped tables are thirty-two steps of the byte-swapped register |
| ZlibCrc.RunIsWide | dep/zlib/crc32.c:241-243 | up to four bytes can be added before any bit leaves the register |
| ZlibCrc.ExtendAppend | dep/zlib/crc32.c:204-236 | checksums can be taken piece by piece |
| ZlibCrc.CrcOfConcatenation | dep/zlib/crc32.c:355-408 | the law behind combining: shift the first by the length of the second and add |
| ZlibCrc.MatrixTimes | dep/zlib/crc32.c:327-341 | the early exit never leaves out a set bit and never reads past the matrix |
| ZlibCrc.ApplyIsShifts | dep/zlib/crc32.c:327-341 | the matrix for k zero bits, applied, is k steps of the register |
| ZlibCrc.MatrixSquare | dep/zlib/crc32.c:344-352 | squaring the matrix for k zero bits gives the one for 2k |
| ZlibCrc.HalfStep | dep/zlib/crc32.c:385-403 | one bit of the length used up leaves what is still to be applied |
| ZlibCrc.Crc32Combine | dep/zlib/crc32.c:355-408 | for all byte strings A and B the combination of their checksums and the length of B is the checksum of A followed by B |
| Adler.Adler32 | dep/zlib/adler32.c:65-133 | with deferred reductions and 32-bit sums: the byte-by-byte checksum of section 8.2 of RFC 1950, for every length and every 32-bit starting value; for a single byte the sums are right modulo the base, and the result is reduced if and only if high half and new low half together are below twice the base; the first checksum for a null buffer |
| Adler.CheckValue | dep/zlib/adler32.c:65-133 | the checksum of the nine digits 123456789 is 0x091e01de |
| Adler.NotReduced | dep/zlib/adler32.c:77-86 | a starting value and a byte for which one subtraction does not reduce the second sum |
| Adler.NoOverflow | dep/zlib/adler32.c:14-16 | 5552 bytes cannot carry a 32-bit sum past its range |
| Adler.NMaxIsLargest | dep/zlib/adler32.c:14-16 | 5553 bytes can carry a 32-bit sum past its range |
| Adler.RawReduces | dep/zlib/adler32.c:104-129 | reducing once at the end is enough |
| Adler.AddMany | dep/zlib/adler32.c:104-132 | one reduction for every 5552 bytes gives the reduced sums |
| Adler.AddFew | dep/zlib/adler32.c:93-102 | fewer than sixteen bytes with one subtraction |
| Adler.AddByte | dep/zlib/adler32.c:77-86 | a single byte without division: right modulo the base for any halves, and reduced exactly when one subtraction is enough |
| Adler.JoinedSums | dep/zlib/adler32.c:149-161 | both sums of a concatenation from those of its parts |
| Adler.CombineArithmetic | dep/zlib/adler32.c:155-160 | at most two subtractions bring the combined sums into range |
| Adler.Adler32Combine | dep/zlib/adler32.c:136-162 | for all byte strings A and B the combination is the checksum of A followed by B; a negative length gives the invalid value |
| Adler.Mod28 | dep/zlib/adler32.c:35-39 | the division-free remainder is right for every 28-bit value |
| Adler.Mod32 | dep/zlib/adler32.c:40-44 | the division-free remainder is right for every 32-bit value |
| Adler.Mod63 | dep/zlib/adler32.c:45-57 | the division-free remainder is right for every nonnegative 63-bit value |
| Deflater.Deflate.DeflateFast | dep/zlib/deflate.c:1628-1712 | for any flush, any pieces of input and any number of window slides, the tokens tallied so far expand to exactly the text passed, with lengths 3 to 258 and distances 1 to MAX_DIST as section 3.2.5 of RFC 1951 allows, and are those decided on, one search for every string; the state returned says whether all input is in tokens and all tokens in blocks, and then the last two strings wait to be inserted |
| Deflater.Deflate.DeflateSlow | dep/zlib/deflate.c:1730-1853 | the tokens tallied by the lazy evaluation expand to exactly the text passed but for the one byte put off, and are those decided on, one search for every string, for any flush, pieces of input and window slides; the state returned says whether all input is in tokens and all tokens in blocks, and then the last two strings wait to be inserted |
| Deflater.Deflate.constructor | dep/zlib/deflate.c:213-318 | the state after initialisation satisfies both invariants |
| Deflater.Deflate.StepFast | dep/zlib/deflate.c:1647-1703 | exactly one token more: the pair longest_match finds for the string at strstart if it finds one of 3 bytes or more, else the literal; the strings of the text told are inserted, but for those inside a long match; the account of the text is kept |
| Deflater.Deflate.StepSlow | dep/zlib/deflate.c:1752-1838 | exactly the tokens of one step of the lazy evaluation more: the match put off if what is found now is no longer, else the byte put off if there is one; every complete string of the text told is inserted; the account of the text is kept |
| Deflater.Deflate.LongestMatch | dep/zlib/deflate.c:1148-1289 | length and place are those of the best of the candidates visited, cut at the lookahead: no candidate visited agrees further, and the first that agrees so far is taken, unless none is better than the match known before; the candidates are the first max_chain links of the chain, a quarter of them if the match before is good, above the limit, ending at the first that is better and nice; a match found repeats the text at most MAX_DIST back |
| Deflater.Deflate.Search | dep/zlib/deflate.c:1195-1285 | along the chain every candidate is in the window, and what is found is exactly the pick from the candidates |
| Deflater.Deflate.Try | dep/zlib/deflate.c:1242-1269 | a candidate is turned down only if it agrees in at most as many bytes as the best so far; otherwise its length is the whole agreement, up to 258 bytes: the quick checks and the skipped third byte never decide wrongly |
| Deflater.Deflate.Compare | dep/zlib/deflate.c:1242-1269 | from the fourth byte on, eight at a time: the number of bytes that agree, up to 258 |
| MatchFinder.PickIsBest | dep/zlib/deflate.c:1195-1285 | picking along a list of candidates gives the longest agreement among those visited, at the first that has it; every one before the last visited was not both better and good enough, and the last was, unless the list was used up |
| MatchFinder.AgreeIs | dep/zlib/deflate.c:1256-1269 | the agreement of two strings: equal that far, and different at the next byte unless 258 are equal |
| Deflater.NothingMissed | dep/zlib/deflate.c:1140-1146 | the candidates are strings of the same key, newest first, and every string inserted with that key within reach is one of them, unless it is older than all of as many as are followed |
| HashChains.ChainLists | dep/zlib/deflate.c:1284-1285 | the links, through reused slots and slides, lead through all inserted strings of a key, newest first |
| Deflater.Deflate.Older | dep/zlib/deflate.c:1284-1285 | the link followed leads to an older string with the same key or ends the chain |
| Deflater.Deflate.InsertString | dep/zlib/deflate.c:181-190 | the head of the key becomes this string and its link the head before, nothing else changes; the head returned is the newest of the strings inserted before with that key, or none is within reach |
| Deflater.Deflate.LookUp | dep/zlib/deflate.c:1752-1757 | the string at strstart is inserted exactly if it is complete, and the head of its chain as it was before is what is looked up |
| Deflater.Deflate.FindFast | dep/zlib/deflate.c:1647-1662 | exactly what is to be found for the string at strstart: the search from the head of its chain if that is near enough |
| Deflater.Deflate.FillWindow | dep/zlib/deflate.c:1390-1530 | input moves into the window, through slides of the window and all its tables, and nothing that refers to the text changes meaning; the strings inserted are those that were waiting for their third byte; the bytes behind the data that a search may look at have been written |
| Deflater.Deflate.ZeroAhead | dep/zlib/deflate.c:1496-1524 | exactly the bytes behind the data that were never written and that a search may look at are cleared |
| Deflater.Deflate.Slide | dep/zlib/deflate.c:1419-1451 | the window moves up by its size; every distance, also one to a match_start that wraps below zero, stays what it was |
| Deflater.Deflate.ReadBuf | dep/zlib/deflate.c:1076-1104 | as many bytes as there are and fit join the text |
| Deflater.Deflate.Rehash | dep/zlib/deflate.c:1470-1489 | strings left incomplete by the last input are inserted, all of them that are complete now, and no others |
| Deflater.Deflate.ForgetHistory | dep/zlib/deflate.c:931-938 | after a full flush no string inserted before is found again |
| Deflater.Deflate.TallyLit | dep/zlib/deflate.h:323-329 | a literal is added to the tokens; full exactly at the last slot |
| Deflater.Deflate.TallyDist | dep/zlib/deflate.h:330-339 | a pair is added unharmed by its 16 and 8 bits |
| Deflater.Deflate.EmitPutOff | dep/zlib/deflate.c:1788-1814 | the match put off is told and every complete string in it inserted |
| Deflater.Deflate.FindSlow | dep/zlib/deflate.c:1752-1786 | the last match found is put off, and a longer one is looked for exactly if it is shorter than max_lazy; a short match too far away is given up |
| RollingHash.ThirdByteEqual | dep/zlib/deflate.c:1247-1254 | strings with equal keys and equal first two bytes are equal in the third: the comparison left out is justified, for every hash size |
| RollingHash.Rolled | dep/zlib/deflate.c:160-167 | the key of three bytes, rolled on, has forgotten the oldest |
| HashChains.InsertKeeps | dep/zlib/deflate.c:181-190 | inserting keeps every chain leading through all strings of its key and only those, while slots of the prev table are reused |
| HashChains.SlideKeeps | dep/zlib/deflate.c:1432-1449 | sliding keeps every chain |
| HashChains.Follow | dep/zlib/deflate.c:1284-1285 | a link from a recent string leads to a string with the same key |
| HashChains.ThirdByte | dep/zlib/deflate.c:1247-1254 | strings of the text with equal keys and equal first two bytes have the same third byte |
| Lz77.CoverMatch | dep/zlib/deflate.h:330-339 | a pair that repeats the text adds exactly its bytes, also when the copy overlaps itself |
| Lz77.CoverLiteral | dep/zlib/deflate.h:323-329 | a literal adds its byte |
| Lz77.CopyRepeats | dep/zlib/deflate.h:330-339 | copying byte by byte from dist back spells a repetition of the text |
| Buckets.ClassesOrdered | dep/bzip2/blocksort.c:266-271 | classes taken h places back order rotations by their characters h to 2h |
| Buckets.ClassesDeepen | dep/bzip2/blocksort.c:294-305 | among rotations equal on h characters, order by class is order on 2h |
| Buckets.MixedStep | dep/bzip2/blocksort.c:273-306 | after each bucket the places so far are in order and marked on 2h characters, the rest still on h |
| Buckets.MixedEnd | dep/bzip2/blocksort.c:285-312 | when only single places remain the pass is complete |

## Left out

- Memory allocation and its failure, null pointers, verbosity output, the file layer over `FILE`, and platform macros.
- The counters `total_in` and `total_out`, and the version string.
- Overlaid memory: `mtfv` over `ptr` is modelled (as halfwords); `zbits` and `quadrant` behind the block in `arr2`, and the classes of the fallback sort over the block, are separate arrays (that zbits would fit is proved), the block being overwritten with arbitrary bytes where the classes would be written.
- The bit tables `bhtab` of the fallback sort are arrays of bool; word-at-a-time scanning is modelled over groups of 32.
- The list of selectors in the decoder is as long as the count read from the stream; where the source's arrays end is stated beside it (`BlockSize.StoreInBounds`).
- CRC tables are the function that generates them, not the literal tables.
- Unrolled loops are loops, with the unrolled steps kept where they have a case of their own.
- Everything of DEFLATE after the tally: trees, block coding, `pending_buf`, `block_start`, frequency counts; how much output a flushed block takes is arbitrary. `trees.c` is not part of this model.
- `deflate_stored`, `deflate_rle`, `deflate_huff`, `deflateParams`, `deflateTune`, dictionaries and gzip headers: one level and strategy from the start on.
- `inflate` and everything under `contrib`, `dep/gsoap` and `dep/SFMT`.
- Decompressor.Decoder.Decompress: does not describe calls after an error has been reported; the source keeps the place it had reached, and nothing says what a further call means.
- Adler.Adler32: a null buffer with a length of one, which the source reads through, is excluded.
