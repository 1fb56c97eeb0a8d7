# LZX, SHA-1 and RC4 of an Xbox BIOS tool, verified

This project models the LZX codec in `src/lzx_encoder.c` and `src/lzx_decoder.c`, the streaming SHA-1 in
`src/sha1.c`, and the RC4 of `src/rc4.c` with its use in `src/Bios.cpp`, and proves what they are relied on for.

The main result is `Compressor.CompressAndDecompress`: data that are read chunk by chunk, translated, parsed into
tokens, written as verbatim, aligned or uncompressed blocks into frames, decoded frame by frame and translated back
are the data again. It holds for all data, and whatever the heuristics of the encoder say. The layers below it:

* **Bits and words** (`Bits`, `BitStream`, `FieldRoundTrips`). A `Wire` is a position in a frame: the bytes written
  and the bits pending. The writer moves it on; the reader stands at it.
* **Huffman codes** (`Canonical`, `DecodeTable`, `SymbolReader`, `Heap`, `Huffman`, `HuffmanLengths`, `Optimal`,
  `MakeTree`). Canonical codes, the two-level decoding table with its overflow tree, the heap-driven merge, the
  length limit, and a proof from first principles that the lengths are optimal.
* **Tree transmission** (`RepTree`), **slots and tokens** (`Slots`, `Tokens`, `TokenBuffer`, `Replay`).
* **Stream** (`Stream`, `Frames`). A script of items (group header, block header, token, raw byte) with the state
  both sides share after each. `BlockWriter` writes a script, `BlockReader` reads it, `Window` is the decoder's ring.
* **E8 translation** (`E8`) and the **whole codec** (`Codec`).
* **Match finder** (`MatchTree`, `LinkedTrees`, `TreeSplit`, `TreeMerge`, `MatchFinder`, `SearchTrees`,
  `RepeatedOffsets`, `Expiry`, `Searching`). Search trees as values and as links in two shared arrays; splitting and
  merging in place; all 65536 trees over a window that grows; what is lost as positions expire.
* **Parser** (`Lookahead`, `Ways`, `NodeTable`, `Parser`) and **everything together** (`Compressor`). `Ways` says what
  a look ahead has tried and that its tokens are a cheapest path. `LostPosition` and `LateOverflow` are examples for
  the findings below.
* **A frame in bytes** (`Computing`, `SampleTables`, `Sample`): codes and bit strings in a form in which they can be
  worked out, proved to be those of the model, and one frame worked out with them.
* **SHA-1** (`Words`, `Sha1`, `Sha1Example`), against sections 4 and 7 of FIPS PUB 180-1, and **RC4** (`Rc4`).

Numbers are those of the program: a window of 131072 bytes, frames of 32768, 34 slots, 528 main and 249 secondary
symbols. Words of 32 and 16 bits are natural numbers with their wrap-around written out; SHA-1 and RC4 use bit vectors.

A frame longer than the output buffer is an overflow. When that happens is stated exactly (the bytes of a frame are a
function of its script, `Frames.BytesOf`), and the data come back from every run without one.

## Findings

- **A first chunk of 7, 8 or 9 bytes makes the E8 scan leave its buffer.** `instr_pos + bytes - 10` in
  `src/lzx_encoder.c:228` and `src/lzx_decoder.c:208` is an unsigned difference. For `instr_pos` 0 and `bytes` 7 it is
  2^32 - 3, and no position inside the chunk reaches it (`Codec.SevenBytesRunOn`). The scan of a chunk of more than 6
  bytes can stop inside the chunk if and only if `instr_pos + bytes >= 10` (`Codec.ScanStops`), and chunks of 7 to 9
  bytes at position 0 are the only ones for which this fails (`Codec.OnlyShortData`). Data of 7, 8 or 9 bytes are
  therefore excluded wherever `Scannable` is required, and no others are.
- **`SHA1Input` reports success in the call in which a message reaches 2^64 bits.** It only marks the context
  (`src/sha1.c:174-188`); later calls report the error. The contract of `Sha1.Sha1Context.Input` says so: from a good
  context with bytes to add, the call returns success in any case, and marks the context as too long if and only if the
  lengths together reach 2^64 bits.
- **Taking positions out can lose some that the next search would accept.** After a chunk the last 50 positions are
  taken out with an end position 50 higher than that of the search that follows (`src/lzx_encoder.c:1851` and `:1614`).
  `LostPosition.PositionLost` gives data of four chunks on which every run loses such a position. Removing a root loses
  none if and only if no position between the two bounds is on the two spines below it (`Expiry.RemovalLossless`), and
  taking out all 50 loses none if and only if each between the bounds is shielded by a newer position from every one
  taken out of its tree (`Expiry.TakenLossless`, `Searching.Finder.CutBack`). Nothing above the higher bound is ever
  lost. Matches may be missed, none is wrong.
- **An overflow in the last flush is not reported.** `lzx_compress` reads `output_overflow` only after each chunk
  (`src/lzx_encoder.c:1931`), not after its last `lzx_flush_compression`. `LateOverflow.OverflowUnnoticed` is a script
  that overflows then. An overflow goes without an error if and only if only frames of the last flush are too long and
  what had been written of the first of them before was not (`Frames.NoticedLate`, `Codec.Compress`). The heuristics
  being arbitrary here, this does not say whether the encoder's own estimates ever choose such blocks.
- **`make_table_8bit` accepts lengths that are no prefix code.** Its sums are 16 bits wide (`src/lzx_decoder.c:341`), so
  two or more times the sum of a complete code reads as zero. `DecodeTable.TwiceTooMany` is an example;
  `DecodeTable.MakeTable8` says exactly what is accepted. `make_table` has 32-bit sums and accepts complete and empty
  lengths only (`DecodeTable.MakeTable`).

## Model

| member | source | states |
|---|---|---|
| Compressor.CompressAndDecompress | src/lzx_encoder.c:1994-2053 | for all data, all cost estimates, all cuts into blocks and all estimated sizes: the encoder writes the frames of a script for the translated data, it overflows exactly when one of them is longer than the output buffer, it returns an error exactly when that was so before the last flush, and without an overflow decompressing gives the data back (no assumption on the tokens) |
| Compressor.ParseAll | src/lzx_encoder.c:1918-1936 | chunk after chunk is read, translated and parsed; the tokens fit and expand to exactly the translated data |
| Compressor.ReadChunk | src/lzx_encoder.c:489-507 | a chunk is read and translated in the window behind what has been parsed; everything before it, the trees included, stays good |
| Codec.RoundTrip | src/lzx_decoder.c:1209-1276 | for every token list that expands to the translated data, whatever blocks it is cut into: overflow means that a frame of the script written is longer than the buffer, the error is returned only for what had been written before the last flush, and what is written without overflow is decoded to the data |
| Codec.Compress | src/lzx_encoder.c:1952-1959 | the frames written form a chain from the initial state to a state whose history is the data; the overflow flag is set exactly when some frame is longer than the buffer; the error is returned exactly when, before the last flush, a frame written was too long or what had been written of the next one was |
| Codec.LookBack | src/lzx_encoder.c:1931-1935 | the flag is read when the last chunk has been taken: it tells whether a frame written by then, or the part of the next one written by then, is too long |
| Frames.WrittenBefore | src/lzx_encoder.c:1881-1917 | what has been written of a frame between two blocks is how the finished frame begins |
| Frames.NoticedLate | src/lzx_encoder.c:1931-1935 | an error returned means an overflow, and an overflow goes without an error exactly when only frames of the last flush are too long and what had been written of the first of them was not |
| LateOverflow.OverflowUnnoticed | src/lzx_encoder.c:2021-2041 | a chain of one frame, of 490 uncompressed blocks, that is too long while nothing but the translation header has been written before the last flush |
| Codec.DecompressBlock | src/lzx_decoder.c:1157-1192 | one frame in a chain is decoded to its bytes, translated back, and leaves the decoder in the encoder's state; it is refused exactly when it is longer than the input buffer (sizes of 38908 to 38912 apart) |
| Codec.Decompress | src/lzx_decoder.c:1209-1276 | all frames of a chain are decoded to the whole history translated back |
| Sample.DecodeSample | src/lzx_decoder.c:1209-1276 | 86 bytes, given one by one, decode to 55 bytes given one by one: a translation header, an uncompressed block of odd size, and a verbatim block with both trees (run codes 17, 18 and 19 and plain differences), a long match, two slots with extra bits, and two repeated offsets |
| Sample.SampleFrame | src/lzx_decoder.c:918-1041 | these bytes are a frame in the sense of the whole-program results |
| Codec.ReadAll | src/lzx_encoder.c:489-507 | all data are read and translated in chunks of 32768 bytes with the right positions |
| Codec.ChunkedRestored | src/lzx_encoder.c:497-504 | translating back chunk by chunk restores all data, over any number of chunks and across the frame threshold |
| Codec.Slide | src/lzx_encoder.c:1841-1873 | the window moves on at the end of a chunk; what it loses lies more than a window back |
| Codec.EndBlock | src/lzx_encoder.c:1445-1456 | one block leaves, uncompressed exactly when its estimate is not smaller than its bytes and the window still holds where it starts; then its bytes are the data |
| Codec.EndBlocks | src/lzx_encoder.c:1787-1789 | blocks leave, one at least if a cut is wanted, until the buffer has room for all tokens of the next way, however many they are; what is stood for stays the same |
| Codec.ScanStops | src/lzx_encoder.c:225-235 | there is a place inside a chunk of more than 6 bytes where the scan stops exactly when its end position does not wrap |
| Codec.SevenBytesRunOn | src/lzx_encoder.c:228 | for a first chunk of 7 bytes the end position is 2^32 - 3, and the scan does not stop inside the chunk |
| Codec.OnlyShortData | src/lzx_encoder.c:218-228 | the scan position does not wrap exactly when the chunk is not a first chunk of 7, 8 or 9 bytes |
| Bits.AppendToWord | src/lzx_encoder.c:256-258 | OR-ing a shifted value into the 32-bit buffer appends its bits to the bits held, most significant first |
| Bits.SplitWord | src/lzx_decoder.c:188-192 | the top n bits of the buffer are the first n bits held, and shifting them out leaves the rest |
| BitStream.PutConcat | src/lzx_encoder.c:256-272 | writing two bit strings one after the other is writing their concatenation, across word boundaries |
| BitStream.BitWriter.OutputBits | src/lzx_encoder.c:256-272 | writing n bits (1 to 17) moves the written position on by exactly those bits |
| BitStream.BitWriter.PadWord | src/lzx_encoder.c:1096 | padding reaches the next word boundary; an aligned position gets a whole word |
| BitStream.AlignIsAligned | src/lzx_encoder.c:1096 | after padding no bits are pending and exactly one word has been added |
| BitStream.BitWriter.RawByte | src/lzx_encoder.c:1106-1108 | a raw byte is appended at an aligned position |
| BitStream.BitWriter.TakeFrame | src/lzx_encoder.c:1881-1917 | flushing gives the bytes written, padded only when bits are pending, and starts again |
| BitStream.FinishExtends | src/lzx_encoder.c:1885-1889 | what a flush gives begins with everything that was written |
| BitStream.ExtendsBack | src/lzx_decoder.c:142-168 | a frame written through a position has been written through every earlier one, and the next bits are there to be read |
| BitStream.BitReader.InitBitbuf | src/lzx_decoder.c:130-141 | two words are loaded; the reader then stands where it started, with 32 unread bits |
| BitStream.BitReader.FillBitbuf | src/lzx_decoder.c:142-168 | after dropping up to 17 bits the reader again holds 16 + bitcount unread bits, and stands just behind the bits dropped |
| BitStream.BitReader.GetBits | src/lzx_decoder.c:188-192 | the value written at this position is read back and the reader moves past it |
| FieldRoundTrips.SendAndReceive | src/lzx_encoder.c:256-272 | any sequence of fields of 1 to 17 bits, flushed, reads back with the same widths to the same values |
| Canonical.MakeCode | src/lzx_encoder.c:681-690 | every used symbol gets the canonical code number of its length and rank |
| Canonical.CodesApart | src/lzx_encoder.c:681-690 | the code ranges of two symbols, on a scale of 16 bits, do not overlap and follow the canonical order |
| Canonical.PrefixFree | src/lzx_encoder.c:681-690 | no code is a prefix of another when the Kraft sum is 65536 |
| Canonical.EveryWordDecodes | src/lzx_decoder.c:246-337 | every 16-bit word begins with the code of a symbol when the Kraft sum is 65536 |
| Canonical.CompleteSum | src/lzx_decoder.c:262-271 | the final start value is 65536 exactly when the Kraft sum is |
| DecodeTable.MakeTable | src/lzx_decoder.c:246-337 | accepts exactly the empty and the complete length tables; for a complete one, table and tree find the symbol of every code that begins a word |
| DecodeTable.MakeTable8 | src/lzx_decoder.c:338-384 | for the direct table of 7 bits over 8 symbols: accepts lengths exactly when their sum is a multiple of 65536 and the codes of each length, placed by 16-bit sums, end inside the table; for complete lengths the table finds every code |
| DecodeTable.TwiceTooMany | src/lzx_decoder.c:349-353 | lengths with twice the sum that a code may have are accepted |
| DecodeTable.PlaceLong | src/lzx_decoder.c:308-333 | entering a code longer than the table keeps table and overflow tree consistent, and leaves the entries of short codes alone |
| DecodeTable.TableFinds | src/lzx_decoder.c:71-83 | a filled table and tree lead from any word to the one symbol whose code begins it, although 0 stands for symbol 0 and for an empty entry |
| DecodeTable.NothingOnTheWay | src/lzx_decoder.c:315-332 | no symbol sits on the way to a longer code, so an entry 0 met there means empty |
| DecodeTable.EmptyMeansNone | src/lzx_decoder.c:316-320 | an entry 0 met while entering a symbol is not symbol 0: no symbol before it lies below that place |
| DecodeTable.NodeBound | src/lzx_decoder.c:291-332 | the overflow tree never needs more nodes than there are symbols |
| SymbolReader.DecodeSymbol | src/lzx_decoder.c:169-187 | table lookup, walk and refill return the symbol whose code was written, and stand behind it |
| Heap.DownHeap | src/lzx_encoder.c:665-680 | sinking an entry extends the heap order by it and keeps the entries |
| Heap.RootIsLeast | src/lzx_encoder.c:665-680 | the root of a heap has the least frequency |
| Heap.RemoveRoot | src/lzx_encoder.c:699-704 | the entry taken is one of least frequency; the rest is again a heap |
| Heap.BuildHeap | src/lzx_encoder.c:693-694 | all entries are put into heap order |
| MakeTree.MergeTwo | src/lzx_encoder.c:698-719 | one round joins two trees of least weight; totals, leaf list and the order of leaves stay as Huffman's algorithm wants them |
| MakeTree.MergeAll | src/lzx_encoder.c:698-722 | the rounds end with one tree over all used symbols |
| MakeTree.JoinGreedy | src/lzx_encoder.c:698-719 | joining the two lightest trees keeps the property that a tree's children are not heavier than its sibling |
| Huffman.FibonacciBound | src/lzx_encoder.c:691-723 | a tree of height h built by the merge weighs at least Fib(h + 2) |
| MakeTree.DepthBounds | src/lzx_encoder.c:617-627 | depth is at most 22 under a 16-bit total, 11 for a total of 273 (the pre-tree), and 7 over 8 symbols |
| HuffmanLengths.CountLen | src/lzx_encoder.c:617-627 | leaves are counted by depth, those below 16 at 16 |
| Huffman.CutKraftIs | src/lzx_encoder.c:638-641 | cutting depths off at 16 raises the Kraft sum by an excess smaller than the number of leaves at 16 |
| HuffmanLengths.SomeShorter | src/lzx_encoder.c:646-652 | while the Kraft sum is too large there is a leaf at a depth below 16 to give way |
| HuffmanLengths.RepairStep | src/lzx_encoder.c:643-655 | one repair step lowers the Kraft sum by one and keeps the number of symbols |
| HuffmanLengths.LimitLengths | src/lzx_encoder.c:638-655 | the repair loop ends with a Kraft sum of exactly 65536 and the same number of symbols, and does nothing when no leaf was too deep |
| HuffmanLengths.AssignLengths | src/lzx_encoder.c:657-662 | lengths are handed out in sorted order, longest first; other symbols keep theirs |
| MakeTree.LengthsProper | src/lzx_encoder.c:657-662 | lengths are 1 to 16 exactly for used symbols, their Kraft sum is 65536, and rarer symbols are never shorter |
| MakeTree.MakeLen | src/lzx_encoder.c:628-663 | the lengths given are proper, and optimal when no leaf is deeper than 16 |
| Optimal.KraftInequality | src/lzx_encoder.c:691-723 | the codes of a prefix code of depth at most d take at most 2^d of the room |
| Optimal.HuffmanIsOptimal | src/lzx_encoder.c:691-723 | no prefix code for the weights costs less than the sum of merged weights |
| Optimal.Rearrangement | src/lzx_encoder.c:657-662 | pairing heavier weights with shorter lengths costs least |
| Huffman.CostIsInnerSum | src/lzx_encoder.c:691-723 | the cost of a tree is the sum of the weights of its inner nodes |
| MakeTree.LengthsOptimal | src/lzx_encoder.c:657-662 | when the tree is at most 16 deep the lengths minimise the sum of frequency times length over all prefix codes for the used symbols |
| MakeTree.AnyPrefixCode | src/lzx_encoder.c:724-759 | every prefix code for the used symbols costs at least as much as the merge |
| MakeTree.Make | src/lzx_encoder.c:724-759 | make_tree: nothing for no symbol, a companion for a single one, and otherwise proper (and optimal, if not too deep) lengths with their canonical codes |
| MakeTree.PaddedMore | src/lzx_encoder.c:741-753 | the companion leaves every used symbol used |
| RepTree.DeltaInverse | src/lzx_encoder.c:968 | adding the mod-17 difference back gives the length |
| RepTree.ChooseStep | src/lzx_encoder.c:945-969 | the sender's look ahead finds the run at an entry and the symbol for it, under the run caps and the sentinel |
| RepTree.CountSymbols | src/lzx_encoder.c:909-937 | the first pass counts every symbol as often as the second pass will send it |
| RepTree.CountedServes | src/lzx_encoder.c:895-991 | a code for the counted symbols has a code for every symbol of the second pass |
| RepTree.SmallTree | src/lzx_encoder.c:939-943 | the pre-tree fits its four-bit fields |
| RepTree.SendFields | src/lzx_encoder.c:941-943 | lengths go out in fields of n bits |
| RepTree.SendTable | src/lzx_encoder.c:945-987 | the second pass writes the differences and runs, each with its code and extra bits |
| RepTree.WriteRepTree | src/lzx_encoder.c:895-991 | pre-tree and table are written; the previous lengths become the current ones |
| RepTree.ReceiveStep | src/lzx_decoder.c:407-455 | one symbol of the pre-tree, with its extra bits and difference, gives the run and the length at this entry |
| RepTree.ReceiveTable | src/lzx_decoder.c:406-456 | all entries are received |
| RepTree.ReadRepTree | src/lzx_decoder.c:386-459 | reading what was written gives the lengths back and stands behind them |
| FieldRoundTrips.TableRoundTrip | src/lzx_encoder.c:895-991 | for all current and previous tables of lengths 0 to 16, reading what was written gives the current table |
| Slots.SlotTables | src/lzx_decoder.c:110-128 | the tables of extra bits, masks and base positions agree with one rule |
| Slots.SlotUnique | src/lzx_encoder.c:62-63 | slots do not overlap |
| Slots.WindowSlots | src/lzx_decoder.c:1042-1054 | distances below the window size lie in 34 slots, with at most 15 extra bits; three of them from 16 on |
| Slots.CreateSlotTable | src/lzx_encoder.c:185-209 | every entry of the lookup table is the slot of its distance |
| Slots.MpSlot | src/lzx_encoder.c:62-63 | both branches give the slot of a distance |
| Slots.ExtraBits | src/lzx_encoder.c:141-149 | masking a distance leaves its offset in its slot |
| Tokens.SymbolParts | src/lzx_encoder.c:1012-1028 | the main symbol tells a literal from a match, and for a match its slot and short length |
| Tokens.AlignedParts | src/lzx_encoder.c:1070-1078 | base, high bits and low three bits make up the distance |
| Tokens.OffsetOf43 | src/lzx_encoder.c:1070-1081 | distance 43 in bits: the four bits 1011 in a verbatim block, and in an aligned one the bit 1 and then the code of 3 |
| Tokens.PlayConcat | src/lzx_encoder.c:1481-1507 | expanding two token lists one after the other is expanding their concatenation |
| TokenBuffer.Buffer.OutLiteral | src/lzx_encoder.c:1630-1631 | the literal is appended to the tokens held |
| TokenBuffer.Buffer.OutMatch | src/lzx_encoder.c:75-79 | the match is appended, its type bit set and its distance kept |
| TokenBuffer.CreateOnesTable | src/lzx_encoder.c:173-184 | every entry is the number of ones in its index |
| TokenBuffer.SampleMatches | src/lzx_encoder.c:578-583 | the running sums over the table of ones are the numbers of match bits |
| TokenBuffer.SplitBlock | src/lzx_encoder.c:564-615 | the split is at a multiple of 64 with the number of matches before it as distance index, or at the end, whatever the difference measure says |
| TokenBuffer.DropBlock | src/lzx_encoder.c:1495-1503 | after the three moves the tokens are those from the split on, and no type bit is set behind them |
| TokenBuffer.Buffer.RemoveBlock | src/lzx_encoder.c:1490-1504 | the tokens held afterwards are the ones after the split |
| Replay.Forget | src/lzx_encoder.c:1404-1423 | after three new offsets in a row nothing before them matters |
| Replay.FinalQueue | src/lzx_encoder.c:1404-1444 | the short replay gives the queue of replaying every distance |
| Replay.QueueOf | src/lzx_decoder.c:744-763 | replaying the distances gives the queue the decoder has after the tokens |
| Stream.Append | src/lzx_encoder.c:1445-1480 | one more item of a block extends the state reached and the bits written |
| Stream.HeadIs | src/lzx_encoder.c:1458-1461 | the header bits: 001 for a verbatim, 010 for an aligned, 011 for an uncompressed block, and then the size as one number of 24 bits |
| Stream.AlignedIs | src/lzx_encoder.c:1468-1472 | the bits of an aligned block up to its tokens: 010, size, the eight lengths of the aligned tree in three bits each, then the other trees |
| Frames.ChainAppend | src/lzx_encoder.c:1894-1905 | a flushed frame is appended with its header |
| Window.Lookup | src/lzx_decoder.c:767-775 | the masked index finds the byte off bytes back, across the end of the ring |
| Window.LookupAhead | src/lzx_decoder.c:844-849 | the unmasked index k bytes further still finds the right byte, through the mirror if need be |
| Window.RingWindow.PutSlow | src/lzx_decoder.c:732-736 | a byte near the start of the window goes into its mirror too |
| Window.RingWindow.PutFast | src/lzx_decoder.c:809-811 | a byte behind the mirrored part is written once |
| Window.RingWindow.CopySlow | src/lzx_decoder.c:767-775 | the masked copy appends what copying in an unbounded history appends, overlap included |
| Window.RingWindow.CopyFast | src/lzx_decoder.c:844-849 | so does the unmasked copy |
| Window.RingWindow.CopyToMirror | src/lzx_decoder.c:902-908 | after an uncompressed block the mirror is restored |
| Window.RingWindow.Wrap | src/lzx_decoder.c:857-860 | starting again at the front keeps ring and mirror |
| Window.RingWrap | src/lzx_decoder.c:857-860 | the full window is the ring of the next round |
| BlockReader.Decoder.constructor | src/lzx_decoder.c:1042-1092 | a fresh decoder is in the initial state |
| BlockReader.Decoder.ReadToken | src/lzx_decoder.c:709-763 | the token written is read: literal, or length and offset, with the queue renewed |
| BlockReader.Decoder.ReadOffset | src/lzx_decoder.c:543-580 | slot, extra bits and aligned bits give the offset written |
| BlockReader.Decoder.ReadTrees | src/lzx_decoder.c:460-484 | both trees are read and their tables find every code |
| BlockReader.Decoder.ReadAlignedTree | src/lzx_decoder.c:485-500 | the lengths of the aligned tree are read and its table finds every code |
| BlockReader.Decoder.ReadGroup | src/lzx_decoder.c:929-942 | the translation header gives the file size written |
| BlockReader.Decoder.ReadHead | src/lzx_decoder.c:955-961 | after the bits 001, 010 or 011 the block is verbatim, aligned or uncompressed, and the size is the number in the next 24 |
| BlockReader.Decoder.ReadQueue | src/lzx_decoder.c:975-989 | the three offsets are read from the byte after the padding |
| BlockReader.Decoder.ResumeBits | src/lzx_decoder.c:944-953 | after an uncompressed block, odd or even, the reader stands where bits go on |
| BlockReader.Decoder.DecodeSlow | src/lzx_decoder.c:709-784 | tokens near the start of the window are decoded to the bytes and the queue they stand for |
| BlockReader.Decoder.DecodeFast | src/lzx_decoder.c:785-863 | so are tokens behind it, without masking |
| BlockReader.Decoder.DecodeCoded | src/lzx_decoder.c:864-879 | both together decode the part of a coded block in a frame |
| BlockReader.Decoder.DecodeUncompressed | src/lzx_decoder.c:881-916 | the bytes of an uncompressed block are copied, and the mirror kept |
| BlockReader.Decoder.OpenBlock | src/lzx_decoder.c:923-996 | at a block boundary header, sizes, trees or queue are read; the decoder is in the encoder's state |
| BlockReader.Decoder.DecodeBlock | src/lzx_decoder.c:998-1026 | a block is decoded as far as the frame goes |
| BlockReader.Decoder.DecodeData | src/lzx_decoder.c:918-1041 | a frame is decoded to exactly the bytes it stands for, across blocks, and the decoder ends in the encoder's state |
| BlockReader.Decoder.CopyOut | src/lzx_decoder.c:1033-1038 | the output is the last bytes of the history, also when the window has just wrapped |
| BlockWriter.BlockStats | src/lzx_encoder.c:766-792 | the frequencies are, for every main symbol and every long length, the number of tokens of the block that have it; and the bytes the block stands for |
| BlockWriter.AlignedStats | src/lzx_encoder.c:837-869 | the frequencies are the numbers of distances from 16 on with these low three bits; an aligned block is chosen exactly when there are 100 matches or more and one of the eight numbers is more than a fifth of their sum |
| BlockWriter.ServedBy | src/lzx_encoder.c:760-764 | trees made for the counts have a code for everything the block needs |
| BlockWriter.OutputExtra | src/lzx_encoder.c:1070-1081 | extra and aligned bits of a distance are written |
| BlockWriter.Encoder.EncodeToken | src/lzx_encoder.c:1051-1090 | a token is written and the books moved on; a frame that is full is flushed |
| BlockWriter.Encoder.EncodeCoded | src/lzx_encoder.c:1004-1042 | all tokens of a block are written, over frame boundaries |
| BlockWriter.Encoder.EncodeRaw | src/lzx_encoder.c:1105-1123 | the bytes of the block and the byte after an odd size are written, over frame boundaries |
| BlockWriter.Encoder.EncodeTrees | src/lzx_encoder.c:992-996 | both trees are written against the previous ones, which they replace |
| BlockWriter.Encoder.EncodeAlignedTree | src/lzx_encoder.c:997-1002 | the aligned lengths fit three bits and are written |
| BlockWriter.Encoder.BeginGroup | src/lzx_encoder.c:1598-1611 | the translation header is written |
| BlockWriter.Encoder.WriteHead | src/lzx_encoder.c:1458-1461 | 001, 010 or 011 for a verbatim, aligned or uncompressed block and 24 bits for the size are written |
| BlockWriter.Encoder.WriteQueue | src/lzx_encoder.c:1096-1103 | the queue is written behind the padding |
| BlockWriter.Encoder.FlushFrame | src/lzx_encoder.c:1881-1917 | the frame goes to the output with its header; the chain of frames goes on |
| BlockWriter.Encoder.WriteCodedBlock | src/lzx_encoder.c:1463-1473 | a coded block is written: the decoder state reached is that of its tokens |
| BlockWriter.Encoder.WriteRawBlock | src/lzx_encoder.c:1474-1477 | so is an uncompressed one |
| BlockWriter.Encoder.DoBlockOutput | src/lzx_encoder.c:1445-1480 | the block is uncompressed exactly when its estimate is not smaller than its bytes and they are still in the window, otherwise aligned exactly when that is worth while; in any case the state reached is that of the tokens |
| BlockWriter.Encoder.OutputBlock | src/lzx_encoder.c:1481-1507 | one block leaves: what has been written and what is still held together stand for the same data as before |
| BlockWriter.Encoder.AddToken | src/lzx_encoder.c:1791-1801 | a token that fits is held, and the data stood for grow by it |
| BlockWriter.Encoder.Finish | src/lzx_encoder.c:1952-1959 | all tokens leave and the last frame is flushed: the output is the frames of a chain to the whole data |
| E8.OperandRestored | src/lzx_decoder.c:220-235 | every 32-bit operand, in range, wrapped or untouched, is restored |
| E8.EncodeIs | src/lzx_encoder.c:237-247 | the encoder's operand, with rel the signed value of the old one: the position plus rel if that lies in the file, rel minus the file size if it lies behind it and rel is below the size, otherwise unchanged |
| E8.DecodeIs | src/lzx_decoder.c:220-235 | the decoder's operand, in the same three cases |
| E8.CallTranslated | src/lzx_encoder.c:230-250 | the four bytes behind every call that the scan comes to hold that operand, for encoder and decoder; the call byte, and every other place that it comes to, keep their value |
| E8.CallOfChunk | src/lzx_encoder.c:237-247 | a first chunk of 32 bytes with E8 10 00 00 00 at place 4 leaves with E8 14 00 00 00, and comes back |
| E8.CallRestored | src/lzx_encoder.c:230-250 | a call instruction is restored, and the scans stop at the same places after it |
| E8.ChunkRestored | src/lzx_decoder.c:193-244 | a chunk is restored for every start position below 2^30 |
| E8.TranslateE8 | src/lzx_encoder.c:211-255 | the in-place scan with its six sentinel bytes does what the translation of the chunk does (for what that makes of a call see E8.CallTranslated), and nothing outside the chunk changes |
| E8.NextCall | src/lzx_encoder.c:231-235 | the inner scan stops at the next call or at a sentinel |
| E8.DoCall | src/lzx_encoder.c:237-250 | an operand is rewritten where the call byte was found, in front of the sentinels, and nothing else changes |
| MatchTree.Trichotomy | src/lzx_encoder.c:1154-1220 | two positions are ordered one way or the other, or agree on 50 bytes |
| MatchTree.NodesDiffer | src/lzx_encoder.c:1154-1220 | any two nodes of a tree differ within 50 bytes |
| MatchTree.RootNewest | src/lzx_encoder.c:1851-1854 | the root is the newest node |
| MatchTree.InsertTreap | src/lzx_encoder.c:1328-1402 | inserting the newest position keeps larger strings left, smaller right and children older; exactly the nodes that agree on 50 bytes leave |
| MatchTree.RemoveTreap | src/lzx_encoder.c:1278-1327 | removing the root keeps the tree ordered, without the root and with every other node after the bound of the removal (for what is lost up to it see Expiry.RemovalLossless) |
| Expiry.MergeKeeps | src/lzx_encoder.c:1303-1326 | merging the subtrees of a root keeps exactly what is kept of each: all but the first expired node on its inner spine and what is below that |
| Expiry.RemovalLossless | src/lzx_encoder.c:1278-1327 | removing a root loses no position after the bound of the search if and only if no position between the two bounds is on the two spines below it |
| Expiry.ClearIsShielded | src/lzx_encoder.c:1303-1326 | that is so exactly when between the root and each such position, in the order of the strings, there is a newer one |
| Expiry.TakenOrdered | src/lzx_encoder.c:1851-1854 | taking out the last positions keeps all trees ordered and every other position after the higher bound |
| Expiry.TakenLossless | src/lzx_encoder.c:1851-1854 | taking out the last n positions, newest first, loses no position after the bound of the next search if and only if each between the two bounds is shielded by a newer one from every one taken out of its tree |
| MatchTree.LiveNodes | src/lzx_encoder.c:1217 | stopping at the first expired position loses no live node |
| MatchTree.LiveTreap | src/lzx_encoder.c:1217 | what is left after expiry is ordered |
| LinkedTrees.LinkedLive | src/lzx_encoder.c:1143-1147 | as positions expire the same links show what is left of the tree |
| TreeSplit.StepBelow | src/lzx_encoder.c:1190-1192 | going left at a smaller string splits the tree further |
| TreeSplit.StepAbove | src/lzx_encoder.c:1213-1215 | so does going right at a larger one |
| TreeSplit.CloseBoth | src/lzx_encoder.c:1217-1220 | with both open ends closed the new node is the root of the tree with it inserted |
| TreeMerge.MergeStep | src/lzx_encoder.c:1303-1326 | linking the newer root in at the open end goes on with the merge |
| TreeMerge.MergeDone | src/lzx_encoder.c:1305-1310 | when both sides have run out the path is a linked tree |
| MatchFinder.SkipAgrees | src/lzx_encoder.c:1161-1168 | skipping min(small_len, big_len) bytes skips no mismatch |
| MatchFinder.SkipBelow | src/lzx_encoder.c:1186-1192 | below a smaller string the smaller ones agree at least as far as it does |
| MatchFinder.SkipAbove | src/lzx_encoder.c:1209-1215 | and the larger ones below a larger string |
| MatchFinder.Compare | src/lzx_encoder.c:1161-1168 | the byte loop finds the match length and which string is smaller |
| MatchFinder.NewBest | src/lzx_encoder.c:1172-1177 | the first node that matches further is the nearest for the lengths it adds |
| MatchFinder.FindLongest | src/lzx_encoder.c:1126-1223 | match_length is the longest agreement (at most 257) with any live position of the tree, every table entry gives the distance to the nearest position agreeing that far, and the position is inserted |
| MatchFinder.QuickInsertAt | src/lzx_encoder.c:1328-1402 | the split in place makes the tree with the position inserted; links of other trees do not change |
| MatchFinder.MergeLinked | src/lzx_encoder.c:1303-1326 | the merge in place makes the merged tree |
| MatchFinder.RemoveRootAt | src/lzx_encoder.c:1278-1327 | the removal in place makes the tree without its root; links of other trees do not change |
| SearchTrees.ForestLive | src/lzx_encoder.c:1143-1147 | expiry keeps every tree |
| SearchTrees.ForestChange | src/lzx_encoder.c:1138-1140 | changing one tree does not disturb the 65535 others |
| SearchTrees.NotRoot | src/lzx_encoder.c:1280-1283 | a newest position that is not the root of its tree is in no tree |
| SearchTrees.TreapReads | src/lzx_encoder.c:1851-1854 | reading more input keeps a tree ordered when its nodes end 50 bytes before |
| SearchTrees.ForestReads | src/lzx_encoder.c:1851-1854 | reading more input after the last 50 positions were taken out keeps every tree |
| SearchTrees.ForestSlid | src/lzx_encoder.c:1866-1871 | once positions have expired, bytes and links before them may become anything |
| Searching.Finder.QuickInsert | src/lzx_encoder.c:1328-1402 | all trees afterwards: expired nodes gone, the position inserted into its own |
| Searching.Finder.Find | src/lzx_encoder.c:1126-1276 | the same, and everything found: longest match, nearest positions, preferred repeated offsets, capped before the end of the chunk |
| Searching.Finder.Remove | src/lzx_encoder.c:1278-1327 | all trees afterwards, as a function of the trees before; the position is in none |
| Searching.Finder.CutBack | src/lzx_encoder.c:1851-1854 | all trees afterwards; no tree holds any of the latest 50 positions; none after the higher bound is lost; and none after the bound of the next search is lost if and only if each between the bounds was shielded |
| LostPosition.PositionLost | src/lzx_encoder.c:1851-1854 | for four chunks of certain data, however they are parsed and whether or not the first block is redone: at the end a position that the next search would accept is in no tree |
| Searching.Finder.PutBack | src/lzx_encoder.c:1612-1616 | all trees afterwards: the 50 positions are inserted again, oldest first, over the bytes read since |
| Searching.PassesOn | src/lzx_encoder.c:1721-1727 | passing two stretches puts into the trees what passing both at once does: every position, in order, but for some inside runs of one byte |
| Searching.FoundTable | src/lzx_encoder.c:1223-1276 | every table entry up to the length returned is a match the decoder can make, under the queue |
| Searching.Finder.StillValid | src/lzx_encoder.c:489-507 | the trees stay good when bytes behind the current position change |
| Searching.Finder.SlideKeeps | src/lzx_encoder.c:1866-1871 | when the window moves on, the bytes and links kept are all that the trees need from the next insertion on |
| RepeatedOffsets.PreferRepeated | src/lzx_encoder.c:1225-1263 | an entry becomes 0, 1 or 2 when that repeated offset agrees on so many bytes, in this order of preference |
| RepeatedOffsets.Bounded | src/lzx_encoder.c:1267-1276 | a match ends before the last byte of its chunk, or is dropped |
| RepeatedOffsets.CopyRepeats | src/lzx_encoder.c:1225-1230 | copying from an offset that agrees appends the bytes that follow |
| Lookahead.WayPlays | src/lzx_encoder.c:1791-1801 | a way between two positions is a token that fits the frame and stands for the bytes between them |
| Lookahead.SettleNext | src/lzx_encoder.c:1674-1703 | visiting the next node makes its way and its queue final |
| Lookahead.SettledQueue | src/lzx_encoder.c:1676-1703 | the queue of every visited node stays inside the data |
| Lookahead.TokensPlay | src/lzx_encoder.c:1774-1801 | the tokens on the way to a node stand for the bytes up to it and leave the queue of that path |
| NodeTable.SetUp | src/lzx_encoder.c:1653-1665 | the first nodes are reached by a literal and by every match found, with what these cost |
| NodeTable.Visit | src/lzx_encoder.c:1674-1703 | a repeat code is resolved in the queue of the node it starts from |
| NodeTable.Improve | src/lzx_encoder.c:1757-1770 | a node changes exactly when the way tried has fewer bits than the node, and then to that way and its bits |
| NodeTable.Relax | src/lzx_encoder.c:1745-1771 | after widening the span, by the rule for matches of two bytes, and trying all ways over a node, every node up to the span is reached from a visited one, and the bits of each are those of its way and no more than those of any other way tried |
| NodeTable.TurnRound | src/lzx_encoder.c:1774-1785 | the backward walk turns the chosen path round and counts it |
| NodeTable.NextHop | src/lzx_encoder.c:1791-1801 | the forward walk meets the nodes of the path in order, with their links |
| Ways.NoneCheaper | src/lzx_encoder.c:1754-1771 | no path over the ways tried costs less than the bits in the table |
| Ways.SpanCheapest | src/lzx_encoder.c:1671-1801 | when a look ahead comes to its span, its tokens are those of a path over ways tried that costs no more than any other path to the same place |
| Ways.LongCheapest | src/lzx_encoder.c:1716-1743 | when it ends with a long match, its tokens are those of such a cheapest path to the place of the match, and then the match |
| Parser.Parser.FindAhead | src/lzx_encoder.c:1706-1714 | the length is that of the search at this position, cut off at the end of the chunk, and 0 if less than 2 is left; the table is that of the search; the position is inserted |
| Parser.Parser.LookNode | src/lzx_encoder.c:1671-1772 | one turn of the look ahead: the next node is searched, with its queue and the trees of that moment, and the look ahead ends at its span, ends with a match longer than 50 or leading out of the table, or goes on with all nodes at their least cost; the trees are exactly those that the positions passed leave |
| Parser.Parser.EmitRoute | src/lzx_encoder.c:1774-1801 | the tokens emitted are those of the path |
| Parser.Parser.EmitLong | src/lzx_encoder.c:1811-1833 | the match of this length with the distance code found is emitted and the positions it passes are inserted in order; the tokens stand for the bytes passed |
| Parser.Parser.InsertSkipped | src/lzx_encoder.c:1721-1727 | the trees afterwards: all positions that a match passes over are inserted in order, and only the first of them if the match is one byte back and longer than 16 |
| Parser.Parser.Step | src/lzx_encoder.c:1620-1838 | with the length that the search gives, cut off at the end of the chunk: a literal if it is below 2, the match itself from 50 on, and otherwise the tokens of a look ahead (Ways.SpanCheapest, Ways.LongCheapest); no token crosses the end of the chunk, all tokens stand for exactly the bytes passed, and the trees are exactly those that the positions passed leave |
| Parser.Parser.Restart | src/lzx_encoder.c:1524-1586 | redoing the first block starts from the first position with nothing in the trees |
| Parser.Parser.EncodeTop | src/lzx_encoder.c:1587-1879 | a chunk is parsed, and everything before it again if the first block is redone; the trees left are those of the positions taken out put back, the positions passed inserted, and the last 50 taken out; they are ready for more input |
| Sha1.PaddedWhole | src/sha1.c:290-327 | padding ends on a block boundary |
| Sha1.PartialMore | src/sha1.c:166-187 | one more byte keeps block index, block and hash in step with the message; the index stays below 64 |
| Sha1.CountedMore | src/sha1.c:172-181 | the two counters hold the length in bits until it reaches 2^64 |
| Sha1.FieldOf | src/sha1.c:315-324 | the bytes of the counters are the 64-bit length field |
| Sha1.PadShort | src/sha1.c:307-314 | padding within one block completes the message |
| Sha1.PadLong | src/sha1.c:295-306 | padding into a second block completes it too |
| Sha1.Expand | src/sha1.c:207-216 | the 80 words are those of section 7 of FIPS PUB 180-1 |
| Sha1.RunRounds | src/sha1.c:218-260 | the four loops are the 80 rounds (for their functions see the rows of Words, for their constants Sha1Example.DigestOfAbc) |
| Sha1.Sha1Context.constructor | src/sha1.c:60-82 | a reset context has absorbed the empty message |
| Sha1.Sha1Context.ProcessMessageBlock | src/sha1.c:199-271 | the hash is compressed with the block |
| Sha1.Sha1Context.InputByte | src/sha1.c:165-188 | a byte is added to the message, or the message is found to have reached 2^64 bits |
| Sha1.Sha1Context.Input | src/sha1.c:150-192 | bytes are added; a finished context reports a state error, and 2^64 bits or more mark it as too long |
| Sha1.Sha1Context.PadMessage | src/sha1.c:290-327 | the hash is that of the whole padded message |
| Sha1.Sha1Context.Result | src/sha1.c:101-130 | the digest of the message, or the error; asked again it is the same |
| Sha1.DigestOfPieces | src/sha1.c:150-192 | however a message is divided into calls, the digest is that of the whole message under FIPS PUB 180-1, or it is reported too long |
| Sha1Example.DigestOfAbc | src/sha1.c:60-82 | the digest of "abc" is A9993E36 4706816A BA3E2571 7850C26C 9CD0D89D, byte by byte |
| Words.Rotate1Is | src/sha1.c:217 | rotation by 1 as a number |
| Words.Rotate5Is | src/sha1.c:227 | rotation by 5 as a number |
| Words.Rotate30Is | src/sha1.c:230 | rotation by 30 as a number: a quarter of x, and four times as high the remainder |
| Words.ChooseIs | src/sha1.c:227 | the second word where the first has ones, the third elsewhere |
| Words.ParityIs | src/sha1.c:237 | the third word where the first two agree, its complement elsewhere |
| Words.MajorityIs | src/sha1.c:246 | the first word where the first two agree, the third elsewhere |
| Words.Xor4Is | src/sha1.c:217 | the exclusive or of four words, by where the first two and the last two agree |
| Words.PlusIs | src/sha1.c:263-267 | the sum of two words modulo 2^32 |
| Words.Plus5Is | src/sha1.c:227 | the sum of five words modulo 2^32 |
| Words.FromBytesIs | src/sha1.c:209-213 | a word from four bytes, the highest first |
| Words.LowBytes | src/sha1.c:125-127 | four bytes from a word, the highest first |
| Rc4.NextGood | src/rc4.c:47-56 | every step keeps the table a permutation |
| Rc4.KeyGood | src/rc4.c:27-45 | so does key setup |
| Rc4.KeyNext | src/rc4.c:34-44 | one step of key setup: j grows by the entry at n and byte n of the repeated key, modulo 256, and the entries at n and j change places |
| Rc4.SwapThrough | src/rc4.c:34-44 | the swaps guided by the repeated key |
| Rc4.Rc4Context.constructor | src/rc4.c:27-45 | the state that a key sets up |
| Rc4.Rc4Context.Crypt | src/rc4.c:47-56 | every byte in range becomes its exclusive or with its byte of the key stream, every other byte is unchanged; without data the generator only runs on |
| Rc4.StreamOn | src/rc4.c:47-56 | a context used for several calls gives one key stream |
| Rc4.FirstBytes | src/rc4.c:47-56 | the first eight bytes of the key stream of the key 0, 0, 255, 254 and so on down to 2: they are 2, 5, 7, 13, 13, 23, 31 and 40 |
| Rc4.PassTwice | src/rc4.c:58-62 | one pass under a fresh context is its own inverse |
| Rc4.PassIs | src/rc4.c:58-62 | one pass makes of every byte its exclusive or with its byte of the key stream |
| Rc4.Bios.PreldrSymmetricEncDecBldr | src/Bios.cpp:492-516 | outside the embedded loader the block is what one full pass makes of it, the embedded loader is unchanged, nothing else changes, and out of bounds nothing does |
| Rc4.Bios.SymmetricEncDecBldr | src/Bios.cpp:518-533 | one full pass over the block |
| Rc4.PreservedTwice | src/Bios.cpp:492-516 | the preserving pass is its own inverse |
| Rc4.PassAfterPreserved | src/Bios.cpp:492-533 | a full pass after the preserving one restores the block except the embedded loader |
| Rc4.PassBackAndForth | src/Bios.cpp:492-516 | the preserving pass called twice with one key restores data and state |

## Left out

- The output buffer is a sequence that grows. Whether a frame has overflowed is decided from its length, when it is flushed and when the last flush begins; the wrap to the start of the buffer, what it leaves in the output, and the size of the caller's buffer are not modelled. After an error the model goes on where the program stops.
- Allocation, freeing, null pointers, buffer growth, error codes of allocation, and memory tracking.
- The contents of the heuristics: cost estimates, the difference measure and thresholds inside block splitting, the estimated block size, when cost estimates are renewed, when a block ends early and when the first block is redone. They are arbitrary parameters, and the results hold for all of them.
- The decoder on data that the encoder did not write. Checks for the end of the input are shown not to fire on encoder output.
- The decoding macros are modelled by the refill and lookup functions that do the same work, and the four coded decoding loops share one method that reads a token.
- A bit reader is a new object for every frame, at the position where the decoder's fields are set again.
- The tree builder's scratch arrays are new for every tree.
- The window that the parser searches is one array as long as the data, so the moves that slide its contents and its links back are not carried out there. That what they keep is all that the trees need is `Searching.Finder.SlideKeeps`. That the window loses old data is modelled where blocks are written (`Codec.Slide`), with everything more than a window back lost at the end of every chunk.
- The tokens of the parser are a sequence that the encoder then takes; where blocks end between them, and for how many tokens room is made before they come (`Codec.EndBlocks`), are parameters of the encoder.
- The initial read of the translation size, and the file size other than the constant 12000000.
- DecodeTable.MakeTable8: does not say what the table holds for lengths that are accepted but not complete, because only encoder output is decoded with it.
- Codec.DecompressBlock: frames of 38908 to 38912 bytes, which fit the decoder's buffer, are excluded: the bit reader may look five bytes past the frame, which would be past the buffer.
- Sha1.Sha1Context.Input: a null context or message is not modelled.
- Rc4.Bios.PreldrSymmetricEncDecBldr: the message printed is left out, and the pointer of the bounds check is an offset that may lie outside the data.
- `tea_encrypt`, `tea_decrypt`, BIOS building, loading and replication, boot parameters, the Xcode interpreter, ini parsing, text output, files and the command line.
