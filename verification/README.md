# Verified models of the serving engine's core

This project models the parts of the inference engine whose correctness rests on
state and arithmetic rather than on kernels, and proves what their code and
comments promise. `dafny verify dfyconfig.toml` checks everything.

| files | component |
|---|---|
| `BucketArray`, `HashTable`, `DenseTable` | the robin-hood hash table behind every tokenizer table: bucket array, load and key arithmetic, the table itself |
| `BytePair`, `Tiktoken` | byte-pair merging with an incremental rank cache; encoder and decoder |
| `Regex`, `Scanner` | backtracking matching of regular expressions; the two hand-written scanners that replace it |
| `Utf8`, `ByteAlphabet`, `TextSplit` | the UTF-8 codec, the byte alphabet, splitting a text by a list of expressions |
| `Utf8Stream` | streaming output of the chat demo |
| `Fnv` | FNV-1a and the chained block hash |
| `PoolBlocks`, `DevicePool`, `CudaAllocator` | the caching device allocator: block lists, one pool, all pools with a history of grants |
| `BlockPool`, `KvStore`, `PrefixMatching`, `PrefixRecording` | the paged KV block pool and the prefix cache as values |
| `KvClasses`, `LruList` | the same as objects updated in place; the intrusive recency list |
| `Serving`, `ServingSteps`, `ServingRuns`, `StepEffects` | sequences sharing pool and cache: the admission protocol as a state machine, what every run keeps, and what each step does |
| `ForkRun`, `ZeroHash` | the runs in which the cache confuses two prompts, and a prompt that does it |

## Main results

* The hash table refines a finite map: every operation, wrap-around, growth and
  range erase included, does to the map what its name says, and a search that
  stops early is right to do so.
* The two scanners cut every text where ordered, greedy, backtracking matching of
  the expressions they replace cuts it.
* The incremental merge loop computes plain byte-pair merging; encoding is lossless
  exactly when ids differ and the pattern leaves no gap.
* Splitting a text by any list of expressions loses nothing, exactly when the text
  is in shortest form.
* In every run of the device allocator, with the driver failing at will, regions are
  tiled exactly, idle neighbours are always merged, the ledgers are true sums, and
  no range still held is given out again.
* In every run of the serving protocol, blocks are accounted for exactly, writes
  never touch a shared block, and every sequence reads KV computed from its own
  tokens - for a given set of prompts if and only if no two of them fork: the same
  block behind the same chained hash, but behind different blocks.

## Where the code does less than it seems to

* Rebuilding a table with exactly 2^32 entries indexes none of them: the loop bound
  is the count cut to 32 bits. `Rehash`, `Reserve` and `Replace` keep the map below that.
* `_byte_pair_merge` on an empty piece: the unsigned bound `parts.size() - 2` wraps
  around to 2^64 - 1, which the 32-bit counter never reaches, so the loop has no
  regular end. The exact lengths for which the loops end are 1 to 2^32 - 2
  (`BytePair.LoopsEndIff`); the outcome for all others is modelled as not returning.
* An id of INT_MAX counts as no id at all while merging (only an assertion excludes it);
  such a pair is never joined (`BytePair.Stuck`).
* When special tokens are found that are not allowed and no allowed one follows, the
  text up to the last of them is dropped (`Tiktoken.ChunksOf`). The callers allow all.
* The decoder table keeps the first of two entries with one id; it inverts the encoder
  if and only if no id is used twice (the check in the source is commented out).
* The UTF-8 decoder accepts over-long forms, surrogates and values up to 0x1FFFFF.
* The string the first scanner is dispatched on lacks the last alternative of the
  expression its comment quotes. The tokens are the same.
* Rounding a request up wraps to 0 above 2^64 - 256, and handing out a block of size 0
  breaks the tiling. The condition is exact (`PoolBlocks.HandOutKeepsOk`).
* `reserve_shared_prefix` compares the blocks with the row but not with each other: a
  list that names a block twice breaks the pool's invariant. A lookup proposes such a
  list exactly when the prompt repeats its first block behind a prefix that hashes to
  0, the hash of the empty prefix. With blocks of two tokens, the tokens 1404660693 and
  906528578 hash to 0, and the prompt that has them twice, followed by any token, does
  it when it is served again (`ForkRuns.ZeroPromptBreaks`).
* The token check of a lookup compares one block and its chained hash. Where two prompts
  have the same block behind the same hash but different blocks before it - or one of
  them nothing before it - and the hashes of the looked-up prompt do not contradict each
  other, the cache can give one prompt the KV of the other. Without such a fork it never
  does; with one, some run does (`ForkRuns.ExactlyForks`). A collision of hashes that is
  not followed by equal blocks does no harm.
* The pool's eviction walk may give up after 1024 entries once it has freed something, so
  a request for several blocks can fail while evictable blocks remain; exactly when is
  `KvStore.ShortExactly`. A request that is one block short never does
  (`KvStore.ShortByOne`).
* Truncating a sequence that holds blocks beyond its prefill progress would count
  unwritten KV as committed. It cannot happen, because a sequence that has grown is
  never chosen as a victim before it is served; the model keeps that rule.
* The comment on the CUDA allocator promises that idle regions are returned above the
  waterline; a region the driver refuses to take stays, and is retried later.

## Model

| member | source | states |
|---|---|---|
| BucketArray.ProbeChain | src/include/base/unordered_dense.h:860-871 | Walking back j steps from an occupied bucket never meets one poorer than a key probing there would be: the fact behind every early miss, for all tables and all wrap-arounds. |
| BucketArray.NotYet | src/include/base/unordered_dense.h:860-871 | Before a value's own bucket is reached, its probe meets only occupied buckets at least as far from home as the probe, so no search for it stops early. |
| BucketArray.BeforeEmpty | src/include/base/unordered_dense.h:972-988 | No empty bucket lies between a key's home and its slot: the index searches of the erases cannot be misled by cleared buckets, which also hold index 0. |
| BucketArray.DistanceBound | src/include/base/unordered_dense.h:860-871 | Any bucket's distance is at most the number of buckets, so a probe ends within one full circle. |
| BucketArray.ShiftUpKeeps | src/include/base/unordered_dense.h:873-880 | Placing a value where its probe stopped and moving the whole run up, across the end of the array, keeps the bijection of values and buckets, each distance equal to the offset from home plus one, and the order of distances. |
| BucketArray.InsertKeeps | src/include/base/unordered_dense.h:873-880 | The same, with the new place of every value worked out. |
| BucketArray.ShiftBackKeeps | src/include/base/unordered_dense.h:960-970 | Taking a bucket out and shifting back leaves exactly its value without a bucket; all other values keep one, at the right distance, in the right order. |
| BucketArray.EraseKeeps | src/include/base/unordered_dense.h:960-989 | The same, with the new place of every value worked out: the state in which the freed index is then redirected. |
| BucketArray.FullCircleStops | src/include/base/unordered_dense.h:960-970 | A backward shift that has moved every other bucket stops at its own start: the loop ends on a full table too. |
| BucketArray.Reindexed | src/include/base/unordered_dense.h:972-988 | Redirecting the bucket of the last value restores the bijection for the value vector with the slot filled by its last value. |
| HashTable.HomeInRange | src/include/base/unordered_dense.h:882-892 | Every 64-bit hash, shifted, has its home inside the bucket array for every shift the table can have. |
| HashTable.FourFifths | src/include/base/unordered_dense.h:924-929 | Below the largest table, four fifths of the buckets may be used, with the rounding error of the single-precision 0.8. |
| HashTable.GrowthMakesRoom | src/include/base/unordered_dense.h:950-958 | One shift less doubles the buckets and strictly raises the capacity, for every size below the largest: the insertion that asked for it fits. |
| HashTable.EnoughRoom | src/include/base/unordered_dense.h:882-892 | A shift found for s entries gives a capacity of at least s, at the largest size too. |
| HashTable.RangeDone | src/include/base/unordered_dense.h:1579-1601 | Filling the hole from the back and then dropping the tail leaves exactly the entries outside [first, last). |
| HashTable.RangeAt | src/include/base/unordered_dense.h:1579-1601 | What every slot holds after k entries of the range have been overwritten from the back. |
| HashTable.DropDuplicate | src/include/base/unordered_dense.h:1357-1407 | Overwriting an entry whose key occurs earlier by the last one loses no key of the container. |
| DenseTable.MissIsSound | src/include/base/unordered_dense.h:1060-1098 | Stopping at the first bucket that is closer to its home than the key would be: the key is absent from the whole table. |
| DenseTable.Table.NextWhileLess | src/include/base/unordered_dense.h:860-871 | Returns the first bucket from the key's home whose word is not larger than the probe's, in at most one circle. |
| DenseTable.Table.PlaceAndShiftUp | src/include/base/unordered_dense.h:873-880 | The new array is the old one with the bucket placed and the run behind it moved up by one, whatever the run and wherever it wraps. |
| DenseTable.Table.ShiftBack | src/include/base/unordered_dense.h:960-970 | The new array is the old one with the bucket taken out and the buckets behind it moved back, up to the first that is empty or at home. |
| DenseTable.Table.BucketOf | src/include/base/unordered_dense.h:972-988 | The walk from a value's home ends at the one bucket that points at it. |
| DenseTable.Table.CalcShiftsForSize | src/include/base/unordered_dense.h:882-892 | The largest shift, that is the smallest table, whose capacity holds the entries. |
| DenseTable.Table.ClearAndFillBucketsFromValues | src/include/base/unordered_dense.h:938-948 | The index is rebuilt for every value; exactly 2^32 entries index none of them, because the loop bound is the count cut to 32 bits. |
| DenseTable.Table.IncreaseSize | src/include/base/unordered_dense.h:950-958 | The map is unchanged and there is room for one more entry, or the table is at its largest size and refuses. |
| DenseTable.Table.Find | src/include/base/unordered_dense.h:1060-1098 | Returns exactly the abstract map's binding of the key: found with its index if and only if the key is present. |
| DenseTable.Table.DoPlaceElement | src/include/base/unordered_dense.h:1021-1034 | The map gains exactly the new binding; the table stays well formed, after growth too. |
| DenseTable.Table.TryEmplace | src/include/base/unordered_dense.h:1036-1058 | Inserts if and only if the key is absent; a present key keeps its value; the returned index is the key's. |
| DenseTable.Table.Emplace | src/include/base/unordered_dense.h:1482-1510 | Pushing first and popping again on a duplicate has the same effect on the map as looking first. |
| DenseTable.Table.InsertOrAssign | src/include/base/unordered_dense.h:1012-1019 | The map is the old one with the key bound to the value, whether it was there or not. |
| DenseTable.Table.DoErase | src/include/base/unordered_dense.h:960-989 | The map loses exactly the key of the erased entry; the freed slot holds the former last entry. |
| DenseTable.Table.EraseKey | src/include/base/unordered_dense.h:991-1010 | Removes the key if it is there, returns how many were removed, and leaves every other binding. |
| DenseTable.Table.EraseAt | src/include/base/unordered_dense.h:1561-1572 | Erasing by position: removes exactly that entry's key. |
| DenseTable.Table.EraseRange | src/include/base/unordered_dense.h:1579-1601 | Removes exactly the keys at positions [first, last), although each single erase moves the last entry. |
| DenseTable.Table.EraseIf | src/include/base/unordered_dense.h:1915-1931 | Removes exactly the entries that satisfy the predicate and returns their number. |
| DenseTable.Table.Clear | src/include/base/unordered_dense.h:1306-1309 | The empty map, in a well-formed table. |
| DenseTable.Table.Rehash | src/include/base/unordered_dense.h:1752-1762 | The map is kept, for fewer than 2^32 entries always; with exactly 2^32 the index survives if and only if the table's shift was 0 already, and otherwise every bucket is empty. |
| DenseTable.Table.Reserve | src/include/base/unordered_dense.h:1764-1777 | The same for a reservation, after which, below 2^32 entries, the capacity asked for is there. |
| DenseTable.Table.Replace | src/include/base/unordered_dense.h:1357-1407 | Adopting any container ends with pairwise different keys, exactly the container's key set, each with a value the container paired it with, and a valid index. |
| BytePair.LoopsEndIff | src/include/base/tiktoken.h:24-51 | The first two loops end if and only if the piece has between 1 and 2^32 - 2 bytes: for the empty piece the unsigned bound wraps to 2^64 - 1, which a 32-bit counter never reaches. |
| BytePair.MergeKeepsCache | src/include/base/tiktoken.h:64-81 | Refreshing two ranks and erasing one boundary leaves every cached rank equal to the rank of the bytes its two parts span. |
| BytePair.InitialParts | src/include/base/tiktoken.h:22-51 | The first loop establishes that cache for the single bytes. |
| BytePair.MinRank | src/include/base/tiktoken.h:56-62 | The pair found is the first one of least cached rank; none if no pair has a rank. |
| BytePair.MergeLoop | src/include/base/tiktoken.h:53-85 | From any piece and any right cache the loop ends in the boundaries plain, uncached merging ends in. |
| BytePair.BytePairMerge | src/include/base/tiktoken.h:17-92 | For every piece: the ids are those of plain byte-pair merging recomputed from scratch at every step, and so is the first missing lookup; a piece on which the loops do not end has that as its outcome. |
| BytePair.BytePairEncode | src/include/base/tiktoken.h:94-108 | The same with the single-byte shortcut. |
| BytePair.PickedPair | src/include/base/tiktoken.h:56-62 | The first pair of least cached rank is the pair plain merging picks. |
| BytePair.MergedIsStuck | src/include/base/tiktoken.h:53-85 | No two neighbouring parts of the result have a rank together. |
| BytePair.LeftmostJoins | src/include/base/tiktoken.h:53-85 | In terms of the vocabulary alone: the pair that is merged is the leftmost of those whose joined bytes have the least id, and merging stops only when no pair has an id below INT_MAX. |
| BytePair.JoinsOnce | src/include/base/tiktoken.h:53-85 | From given boundaries at most one merge is possible, and none when stuck. |
| BytePair.EncodedByRank | src/include/base/tiktoken.h:17-108 | What a piece is encoded to: the ids of the parts at the end of the one chain of such merges from its single bytes, or the first part that has none. |
| BytePair.EncodedHasRun | src/include/base/tiktoken.h:17-92 | Every non-empty piece has such a chain. |
| BytePair.MissIsAByte | src/include/base/tiktoken.h:102-105 | A lookup can only miss on a single byte without a rank. |
| BytePair.EncodedNeverMisses | src/include/base/tiktoken.h:94-108 | If every byte of the piece has a rank and the loops end, encoding cannot fail; whatever else it fails on is a byte without a rank. |
| Tiktoken.BuildDecoder | src/include/base/tiktoken.h:136-144 | The table holds, for every id, the bytes of the first entry that carries it. |
| Tiktoken.FirstKept | src/include/base/tiktoken.h:136-144 | Of several entries with one id the first in order is the one that is decoded. |
| Tiktoken.InvertsIffInjective | src/include/base/tiktoken.h:136-144 | The decoder inverts the encoder if and only if no id is used twice. |
| Tiktoken.BuiltTableReads | src/include/base/tiktoken.h:136-144 | The table built from a vocabulary reads every key back if and only if its ids differ. |
| Tiktoken.DecodeNative | src/include/base/tiktoken.h:240-259 | Concatenates the tokens' bytes, ordinary table first; the first unknown token is the error. |
| Tiktoken.DecodesKnownIds | src/include/base/tiktoken.h:240-259 | Decoding fails exactly on an id that is in neither table. |
| Tiktoken.DecodeConcat | src/include/base/tiktoken.h:240-259 | Decoding a concatenation of token lists is concatenating what they decode to. |
| Tiktoken.PieceRoundTrip | src/include/base/tiktoken.h:94-108 | With distinct ids, decoding the ids of a piece gives the piece back. |
| Tiktoken.EncodeSinglePiece | src/include/base/tiktoken.h:154-160 | A text that is a key gives that one id; any other is merged. |
| Tiktoken.SinglePieceRoundTrip | src/include/base/tiktoken.h:154-160 | Encoding one piece and decoding it is the identity. |
| Tiktoken.SplitAllowed | src/include/base/tiktoken.h:167-186 | Starting behind each hit that is not allowed, the search stops at the first hit that is, with the text before it and behind it; without one, what is left is the text behind the last hit. |
| Tiktoken.FirstHitWins | src/include/base/tiktoken.h:167-186 | Special tokens are taken in the order of the text: a first hit that is allowed is the one returned, with exactly the text before and behind it. |
| Tiktoken.PiecesInOrder | src/include/base/tiktoken.h:188-203 | A stretch of text is encoded match by match: a match that is a key by its id, any other by merging, what lies between the matches not at all. |
| Tiktoken.EncodesInOrder | src/include/base/tiktoken.h:205-238 | The ids of a text are the ids of what lies before the first allowed special token, that token's id, and the ids of what lies behind it, in this order; without an allowed one they are the ids of the text behind the last hit. |
| Tiktoken.EncodeNative | src/include/base/tiktoken.h:205-238 | From the text and the two expressions: the ids of all pieces and special tokens in order, and the number of trailing ids of the last piece. |
| Tiktoken.ChunksText | src/include/base/tiktoken.h:205-238 | What the two expressions cut a text into is the text, in order. |
| Tiktoken.AllAllowed | src/include/base/tiktoken.h:167-186 | No text is dropped on account of special tokens when all that are found are allowed. |
| Tiktoken.TextRoundTrip | src/include/base/tiktoken.h:205-238 | Encoding and decoding a whole text loses exactly the stretches the pattern skipped. |
| Tiktoken.LosslessIffNoGap | src/include/base/tiktoken.h:205-238 | The text itself comes back if and only if the pattern left no gap. |
| Regex.StarIsRun | src/source/base/unicode.cpp:226-229 | A greedy class repetition in a backtracking matcher tries its whole run first, then every shorter run in order. |
| Regex.FirstCatStar | src/source/base/unicode.cpp:226-229 | A class repetition followed by anything matches exactly when the rest matches behind some part of the run, and then it takes the longest such part. |
| Regex.SplitLocal | src/source/base/unicode.cpp:226-336 | The tokens of a segment are those of the segment taken on its own: nothing outside is looked at. |
| Scanner.FirstGpt2 | src/source/base/unicode.cpp:226-336 | For every segment and position, ordered-alternation, greedy, backtracking matching of the first expression ends exactly where a closed form says. |
| Scanner.NextGpt2 | src/source/base/unicode.cpp:261-331 | One round of the hand-written loop ends where that match ends. |
| Scanner.ScanGpt2 | src/source/base/unicode.cpp:226-336 | The scanner's offsets are the token boundaries of the quoted expression on every segment of every text. |
| Scanner.FirstLlama3 | src/source/base/unicode.cpp:338-471 | The same closed form for the second expression. |
| Scanner.NextLlama3 | src/source/base/unicode.cpp:372-467 | One round of the second loop, at anything but a digit, ends where the match ends. |
| Scanner.DigitRun | src/source/base/unicode.cpp:406-417 | A round that emits several tokens from a run of digits emits what repeated matching of up to three digits gives. |
| Scanner.ScanLlama3 | src/source/base/unicode.cpp:338-471 | The second scanner's offsets are the token boundaries of its expression, the space at the end of a segment included. |
| Scanner.DispatchedSplitsAlike | src/source/base/unicode.cpp:533-546 | The expression the first scanner is dispatched on lacks the last alternative of the one it quotes; both cut every segment alike. |
| Scanner.BothCasesSplitAlike | src/source/base/unicode.cpp:533-546 | Spelling both cases of the contraction letters out cuts every segment like case-folding them. |
| Utf8.OneRoundTrip | src/source/base/unicode.cpp:37-72 | Decoding at the place where an encoded code point stands gives it back with its length, for all code points up to U+10FFFF. |
| Utf8.ReencodesIffShortest | src/source/base/unicode.cpp:37-72 | A decoded sequence re-encodes to its own bytes if and only if it was neither over-long nor beyond U+10FFFF. |
| Utf8.EncodedInOrder | src/source/base/unicode.cpp:29-35 | Encodings compare byte by byte as the code points do (section 1 of RFC 3629). |
| Utf8.EncodeText | src/source/base/unicode.cpp:29-35 | The concatenation of the encodings, or the first code point that has none. |
| Utf8.DecodeText | src/source/base/unicode.cpp:594-602 | All code points of a text in order, or the failure of the first undecodable sequence. |
| Utf8.RoundTrip | src/source/base/unicode.cpp:552-602 | decode(encode(cps)) == cps for every sequence of code points that can be encoded (section 3 of RFC 3629). |
| Utf8.TextReencodesIffShortest | src/source/base/unicode.cpp:594-602 | A decodable text comes back from re-encoding if and only if it is in shortest form throughout. |
| ByteAlphabet.SymbolInjective | src/source/base/unicode.cpp:155-177 | Different bytes stand for different code points, hence different strings. |
| ByteAlphabet.AlphabetIs | src/source/base/unicode.cpp:155-177 | No byte stands for a control character, a space or the soft hyphen; every other byte stands for itself, and those for U+0100 to U+0143 in order, the space for U+0120. |
| ByteAlphabet.ByteToUtf8Map | src/source/base/unicode.cpp:155-177 | The table built by three ranges and a counter gives every byte its symbol. |
| ByteAlphabet.Utf8ToByteMap | src/source/base/unicode.cpp:179-201 | The reverse table holds exactly the 256 symbols and reads each back. |
| ByteAlphabet.TableReads | src/source/base/unicode.cpp:179-201 | The table that is built has exactly the code points that reading back accepts, with the same bytes. |
| ByteAlphabet.UnmapMap | src/source/base/unicode.cpp:155-201 | Mapping a byte string to the alphabet and reading it back is the identity. |
| TextSplit.SplitByMatches | src/source/base/unicode.cpp:474-531 | The offsets are the gaps and matches of every segment in order, with what is left behind the last match. |
| TextSplit.GeneralRefines | src/source/base/unicode.cpp:474-531 | Cutting every segment at its reported matches refines the boundaries and keeps the total length, for all ordered lists of matches. |
| TextSplit.GeneralCuts | src/source/base/unicode.cpp:474-531 | The cuts of the general splitter are those there were and the beginnings and ends of all reported matches, and no others. |
| TextSplit.SplitStages | src/source/base/unicode.cpp:634-803 | The boundaries after all expressions, each applied to the segments the ones before it left; none if and only if the engine rejects one. |
| TextSplit.LaterRefines | src/source/base/unicode.cpp:634-803 | For any list of expressions, custom or general, the boundaries after each one contain those after every earlier one, and cover the text. |
| TextSplit.EveryStageObeyed | src/source/base/unicode.cpp:634-803 | No expression of a list is passed over: the final cuts contain every match the engine reported for it, or every token its own expression finds, in the segments it was given. |
| TextSplit.OneStage | src/source/base/unicode.cpp:634-803 | A single custom expression cuts a non-empty text where its regular expression does. |
| TextSplit.ByteEncodingProcess | src/source/base/unicode.cpp:208-224 | Every word comes out mapped byte by byte: decoding and re-encoding it first changes nothing. |
| TextSplit.UnmapAllMapAll | src/source/base/unicode.cpp:208-224 | Reading all mapped words back gives their bytes. |
| TextSplit.RegexSplit | src/source/base/unicode.cpp:634-803 | Reading the words back gives the shortest-form encoding of the text's code points; the words are cut at the boundaries after all expressions; it fails for a rejected expression exactly when one is rejected, and otherwise only for an undecodable text or an unencodable code point. |
| TextSplit.SplitLosslessIffShortest | src/source/base/unicode.cpp:634-803 | The bytes of the text come back if and only if it is in shortest form. |
| Utf8Stream.Stream.CompleteLen | demo/chat_demo.cpp:305-328 | The length of the longest prefix of whole characters, stray bytes passed through. |
| Utf8Stream.CharacterPasses | demo/chat_demo.cpp:305-328 | The cut takes the same length for a character as the decoder, and passes a byte that starts none on alone. |
| Utf8Stream.EncodedCut | demo/chat_demo.cpp:305-328 | The first n bytes of an encoded text are cut behind the last code point that is in them as a whole. |
| Utf8Stream.WholeCharacters | demo/chat_demo.cpp:288-331 | While an encoded text comes in, what has gone out is at every moment the encoding of the code points that have arrived as a whole; at the end it is the whole text. |
| Utf8Stream.Stream.Push | demo/chat_demo.cpp:290-296 | Input so far is output so far plus what is pending; at most three bytes are pending. |
| Utf8Stream.Stream.Flush | demo/chat_demo.cpp:298-302 | What is pending is handed out; outputs and flush make up the input. |
| Utf8Stream.CutMore | demo/chat_demo.cpp:305-328 | Completing the pending tail and completing the whole stream give the same cut. |
| Utf8Stream.ChunkingIndependent | demo/chat_demo.cpp:288-331 | Any two chunkings of one byte stream give the same output and the same tail. |
| Fnv.TimesOver | benchmark/weight-quantization-eval/weight_quantization_eval.cpp:138-145 | Multiplication by the FNV prime modulo 2^64 is undone by multiplication with an inverse. |
| Fnv.FoldBijective | benchmark/weight-quantization-eval/weight_quantization_eval.cpp:138-145 | For every byte string of any length the fold is a bijection of its starting hash. |
| Fnv.Fnv1a | benchmark/weight-quantization-eval/weight_quantization_eval.cpp:138-145 | The loop computes that fold. |
| Fnv.ComputeBlockHash | src/source/scheduler/prefix_cache.cpp:24-34 | The nested loops fold the little-endian bytes of all tokens, continued from the previous hash. |
| Fnv.BlockHashInjective | src/source/scheduler/prefix_cache.cpp:17-34 | Equal blocks have equal hashes if and only if the hashes before them are equal: bijective in prev_hash. |
| PoolBlocks.RoundUpCovers | src/source/base/alloc_cu.cpp:18-20 | Rounding covers a request if and only if it is at most 2^64 - 256; above, it wraps to 0. |
| PoolBlocks.HandOutKeepsOk | src/source/base/alloc_cu.cpp:140-165 | Splitting or handing out whole keeps the exact tiling if and only if the request is at most 2^64 - 256; what is handed out always has exactly the rounded size, since a leftover below 256 is 0. |
| PoolBlocks.HandOutLive | src/source/base/alloc_cu.cpp:140-165 | Exactly the new range becomes held, and it meets no range held before. |
| PoolBlocks.HandOutCoalesced | src/source/base/alloc_cu.cpp:140-165 | Handing out leaves no two idle neighbours. |
| PoolBlocks.GrowKeepsOk | src/source/base/alloc_cu.cpp:195-197 | A fresh range becomes a region tiled by its one block, apart from all others. |
| PoolBlocks.GiveBack | src/source/base/alloc_cu.cpp:244-245 | Marking a block idle takes exactly its range out of what is held and adds its size to the idle ledger. |
| PoolBlocks.AbsorbSameHoldings | src/source/base/alloc_cu.cpp:275-286 | Absorbing a neighbour keeps tiling, disjointness, what is held and both ledgers. |
| PoolBlocks.AbsorbCoalesced | src/source/base/alloc_cu.cpp:275-286 | Absorbing around one block leaves no other pair of idle neighbours, the index corrected for the erased entry. |
| PoolBlocks.IdleRegionIsWhole | src/source/base/alloc_cu.cpp:315-322 | With everything merged, a region is one idle block if and only if nothing in it is held. |
| PoolBlocks.DropRegion | src/source/base/alloc_cu.cpp:322-327 | Taking such a region out keeps tiling, holdings and merging of the rest. |
| PoolBlocks.BusyIsRest | src/source/base/alloc_cu.cpp:369-390 | Idle bytes never exceed reserved bytes, and are 0 when everything is handed out. |
| DevicePools.BestFit | src/source/base/alloc_cu.cpp:130-139 | The first of the smallest idle blocks that are large enough; none if and only if none fits. |
| DevicePools.AllocateLocked | src/source/base/alloc_cu.cpp:122-204 | Served from the pool, without asking the driver, whenever any idle block fits, by the first smallest one; otherwise by a new region. None means that the driver refused twice, with every wholly idle region offered in between; nothing is offered when it grants at once. A failure changes nothing that is held, and the new range meets nothing held. |
| DevicePools.MergeIdleNeighbours | src/source/base/alloc_cu.cpp:256-291 | Merging ends with no idle neighbour anywhere if there was none apart from this block; nothing held changes; nothing at all changes if and only if the block had no neighbour. |
| DevicePools.MergeAllIdle | src/source/base/alloc_cu.cpp:293-308 | Leaves no idle neighbours in any pool, and is a no-op on a pool that has none. |
| DevicePools.ReleaseLocked | src/source/base/alloc_cu.cpp:230-254 | Found if and only if a block starts at the pointer; what is held loses exactly that pointer; a double release changes nothing. |
| DevicePools.FreeRegions | src/source/base/alloc_cu.cpp:310-345 | Offers the driver exactly the wholly idle regions, once each, and gives up exactly those it accepts; the rest keeps its order, tiling, ledgers and holdings; the byte count is the drop of both ledgers. |
| DevicePools.OffersAre | src/source/base/alloc_cu.cpp:310-345 | The offers are the wholly idle regions and nothing else; refused are those not freed. |
| DevicePools.NoRefusal | src/source/base/alloc_cu.cpp:310-345 | When the driver refuses none, no wholly idle region is left, and freed are exactly the regions in which nothing is held. |
| DevicePools.IdleFlushThreshold | src/source/base/alloc_cu.cpp:89-103 | The waterline is 5% of the device when the driver tells its size, and at least 1 GB; it is asked for once. |
| DevicePools.CheckLedger | src/source/base/alloc_cu.cpp:392-411 | Accepts a pool if and only if both ledgers equal the sums over blocks and regions. |
| CudaAllocators.BlocksApart | src/source/base/alloc_cu.cpp:122-254 | Any two different blocks of any pools share no byte. |
| CudaAllocators.HeldApart | src/source/base/alloc_cu.cpp:122-254 | Any two ranges held by callers are disjoint, on all devices together. |
| CudaAllocators.PoolStep | src/source/base/alloc_cu.cpp:105-120 | A step of one pool that touches only its own regions keeps every other pool in order. |
| CudaAllocators.FlushedFreesIdle | src/source/base/alloc_cu.cpp:361-367 | After idle memory was returned, a region is left if and only if something in it is held or the driver refused it in this very call. |
| CudaAllocators.FlushStepUnder | src/source/base/alloc_cu.cpp:347-359 | After a flush a pool is at or under its waterline, or has only idle regions the driver refused in this call; none, if it refused nothing. |
| CudaAllocators.IdleKept | src/source/base/alloc_cu.cpp:89-103 | After a flush without a refusal a pool keeps at most 1 GB or a twentieth of the device idle, unless every region holds something; up to 1 GB nothing is offered. |
| CudaAllocators.NeverAliased | src/include/base/alloc.h:67-68 | In every run of allocations and releases, with the driver failing at will, a range not given back is never given out again, not even in part. |
| CudaAllocators.CudaAllocator.Allocate | src/source/base/alloc_cu.cpp:105-120 | Keeps the invariant of all pools, extends the history by a sound grant or by nothing, with the driver asked as in AllocateLocked, and leaves other devices alone. |
| CudaAllocators.CudaAllocator.Release | src/source/base/alloc_cu.cpp:206-228 | Takes exactly this pointer out of what is held, whichever pool has it; then every pool over its waterline is flushed and no other is touched. An unknown pointer is offered to the driver and changes no pool. |
| CudaAllocators.CudaAllocator.FlushOverWaterline | src/source/base/alloc_cu.cpp:347-359 | Every pool over its waterline loses exactly the idle regions the driver accepts when all of them are offered; no other pool is changed and nothing else is offered. |
| CudaAllocators.CudaAllocator.FreeIdle | src/source/base/alloc_cu.cpp:361-367 | Every pool loses exactly the idle regions the driver accepts when all of them are offered; nothing else is offered. |
| CudaAllocators.CudaAllocator.Stats | src/source/base/alloc_cu.cpp:369-390 | Busy bytes are the sizes of the busy blocks, and busy plus idle is what the regions add up to. |
| CudaAllocators.CudaAllocator.CheckLedgers | src/source/base/alloc_cu.cpp:392-411 | The debug check never fires. |
| BlockPool.Conservation | src/include/scheduler/block_allocator.h:135-141 | Free, referenced and cached-but-unreferenced blocks add up to all blocks. |
| BlockPool.HeldIsReferenced | src/include/scheduler/block_allocator.h:21-31 | A block in a row is referenced and not free; with one reference it is in no other row. |
| BlockPool.TakeKeeps | src/source/scheduler/block_allocator.cpp:97-106 | Taking n blocks keeps refcounts equal to table occurrences and rows free of duplicates; the row gains exactly the last n free blocks. |
| BlockPool.DropFromKeeps | src/source/scheduler/block_allocator.cpp:160-180 | Cutting a row leaves exactly the entries before the cut and grows the free list by exactly the reclaimable blocks. |
| BlockPool.FreeFromKeeps | src/source/scheduler/block_allocator.cpp:160-180 | The whole operation: the invariant, other rows untouched, and the row given up exactly when nothing is left in it. |
| BlockPool.MountKeepsIffNoDup | src/source/scheduler/block_allocator.cpp:110-158 | Mounting blocks that pass the checks keeps the invariant if and only if they are pairwise different, which the checks do not ask. |
| BlockPool.EvictCachedKeeps | src/source/scheduler/block_allocator.cpp:278-287 | Releasing an unreferenced pinned block keeps the invariant. |
| BlockPool.MarkCachedKeeps | src/source/scheduler/block_allocator.cpp:269-276 | Pinning a referenced block keeps the invariant. |
| BlockPool.PlanHolds | src/source/scheduler/scheduler.cpp:497-563 | Preemption sizes several cuts against one state of the pool; carried out one after the other they free at least what was planned. |
| KvStore.EvictWalkKeeps | src/source/scheduler/prefix_cache.cpp:225-254 | Each evicted entry gives one block to the free list; no referenced block, no row and no count is touched; pins and entries stay in one-to-one correspondence. |
| KvStore.EvictWalkOldestFirst | src/source/scheduler/prefix_cache.cpp:225-254 | Whatever is evictable and older than an evicted entry has been evicted too. |
| KvStore.EvictWalkStops | src/source/scheduler/prefix_cache.cpp:225-254 | The walk never comes back empty-handed while anything is evictable, and evicts all of it when it falls short within the scan cap. |
| KvStore.EvictKeeps | src/source/scheduler/prefix_cache.cpp:208-223 | The same for a whole call, with its count. |
| KvStore.EvictExactly | src/source/scheduler/prefix_cache.cpp:208-254 | A call evicts as many as asked for of the unreferenced entries among the 1024 from the oldest such entry on: entries in use in front of it cost no budget, those behind it do. |
| KvStore.EvictWalkOrder | src/source/scheduler/prefix_cache.cpp:225-254 | The entries that stay keep their recency order. |
| KvStore.AppendKeeps | src/source/scheduler/block_allocator.cpp:33-57 | Growth with eviction keeps the invariant; a failed call changes no row, count or ownership; success appends exactly the popped blocks to the one row. |
| KvStore.AllocateKeeps | src/source/scheduler/block_allocator.cpp:59-108 | The same for a new row; with no blocks asked for, nothing is evicted. |
| KvStore.ShortByOne | src/source/scheduler/block_allocator.cpp:26-31 | An allocation one block short - a row growing by a block with none free - fails only when every block is referenced by a row, however long the recency list. |
| KvStore.ShortExactly | src/source/scheduler/block_allocator.cpp:26-31 | For every request and every recency list: the pool runs short if and only if the free blocks and the evictable entries of that window are too few. |
| KvStore.RefusedExactly | src/source/scheduler/block_allocator.cpp:33-108 | A new row is refused if and only if the number is out of bounds, every row is in use or the pool runs short; growth likewise. |
| KvStore.ShortOnlyWhenInUse | src/source/scheduler/block_allocator.cpp:26-31 | For any shortfall, when the list is shorter than the scan cap of 1024, running short means that every block is free or referenced by a row. |
| PrefixMatching.MatchDistinct | src/source/scheduler/prefix_cache.cpp:86-126 | A match names one block twice if and only if, within it, the prompt repeats its first block behind a non-empty prefix that hashes to 0. |
| PrefixMatching.MatchReaches | src/source/scheduler/prefix_cache.cpp:86-126 | A match has n blocks or more if and only if the first n blocks are shareable and each of them is a hit. |
| PrefixMatching.MatchSteady | src/source/scheduler/prefix_cache.cpp:94-123 | A lookup gets only as far as equal hashes of the prompt stand for equal blocks behind equal hashes. |
| PrefixMatching.SameContext | src/source/scheduler/prefix_cache.cpp:17-34 | Where no two prompts fork, equal hashes in front of equal blocks mean equal contexts. |
| PrefixMatching.ForkDiffers | src/include/scheduler/prefix_cache.h:54-64 | The two contexts of a fork are different, although the cache takes them for one. |
| PrefixMatching.RepeatForks | src/source/scheduler/prefix_cache.cpp:86-126 | A repetition is a fork of a prompt with itself. |
| ZeroHash.ZeroBlockHashes | src/source/scheduler/prefix_cache.cpp:24-34 | A block of two tokens whose hash behind nothing is 0. |
| PrefixMatching.ChainOfPrefix | src/source/scheduler/prefix_cache.cpp:94-123 | Chained hashes depend on nothing behind the block. |
| PrefixMatching.CacheableBlocks | src/include/scheduler/prefix_cache.h:149-153 | The shareable blocks end strictly before the block of the last prompt token, and are all that do. |
| PrefixRecording.EvictingKnown | src/source/scheduler/prefix_cache.cpp:225-254 | Eviction never removes the entry of a pinned block that a row holds. |
| PrefixRecording.RecordKeeps | src/source/scheduler/prefix_cache.cpp:157-205 | Recording keeps everything consistent; the cache exceeds its capacity only while every entry is in use, and never twice the capacity. |
| PrefixRecording.RecordExactly | src/source/scheduler/prefix_cache.cpp:157-205 | Offering a block makes its entry, as the most recent one and with its tokens and previous hash, if and only if its hash has none and the cache is below twice its capacity after making room. |
| PrefixRecording.MakeRoomExactly | src/source/scheduler/prefix_cache.cpp:175-187 | Making room drops the least recently used entry not in use, from a full cache only, and nothing when all are in use. |
| PrefixRecording.RecordedIsHit | src/source/scheduler/prefix_cache.cpp:157-205 | A block that was recorded is a hit from then on. |
| PrefixRecording.RecordingOthers | src/source/scheduler/prefix_cache.cpp:157-205 | Recording a block that is in no other row changes nothing for the other rows. |
| PrefixRecording.TouchAllKeeps | src/source/scheduler/prefix_cache.cpp:128-138 | Reordering by recency loses and duplicates no entry. |
| PrefixRecording.TouchedOrder | src/source/scheduler/prefix_cache.cpp:80-84 | Touching an entry puts it in front and leaves the others in their order. |
| Serving.WritesArePrivate | src/include/scheduler/prefix_cache.h:66-77 | Every position from a sequence's progress on, and the last prompt token's, lies in a block no other row holds and no entry names. |
| Serving.UnpinnedIsPrivate | src/include/scheduler/block_allocator.h:21-35 | A block of a row that is not pinned has one reference, in this row. |
| Serving.WrittenInRow | src/source/scheduler/scheduler.cpp:783-796 | Writing a range of positions sets exactly their cells. |
| ServingSteps.GrowKeeps | src/source/scheduler/scheduler.cpp:651-676 | Growing a row, with the eviction it may cause, keeps accounting and contents of all sequences and entries. |
| ServingSteps.EnterKeeps | src/source/scheduler/scheduler.cpp:401-407 | Claiming an empty row keeps them. |
| ServingSteps.MatchMountable | src/source/scheduler/scheduler.cpp:411-420 | What the cache proposes for a row just claimed passes every check of the mount. |
| ServingSteps.EntryCell | src/include/scheduler/prefix_cache.h:54-64 | An entry that a prompt hits holds the KV of that very prefix, unless two prompts fork. |
| ServingSteps.MountKeeps | src/source/scheduler/scheduler.cpp:411-450 | Mounting a match and starting prefill behind it keeps the accounting if and only if the match repeats no block, and the contents when no prompts fork. |
| ServingSteps.TruncateKeeps | src/source/scheduler/scheduler.cpp:594-649 | Preemption down to at least one block keeps them. A cut into the prompt leaves the prompt, computed up to the cut; a later cut leaves every token up to the cut and the prefill as far as it was; the recording cursor is cut to the blocks kept. |
| ServingSteps.FinishKeeps | src/source/scheduler/scheduler.cpp:1195-1250 | Retiring a sequence keeps them. |
| ServingRuns.PrefillKeeps | src/source/scheduler/scheduler.cpp:756-796 | A prefill chunk changes no cell outside blocks that are the sequence's alone, commits exactly its positions, and keeps accounting and contents. |
| ServingRuns.DecodeKeeps | src/source/scheduler/scheduler.cpp:687-707 | The same for a decode step, the re-run of the last prompt token included. |
| ServingRuns.RecordNextKeeps | src/source/scheduler/scheduler.cpp:833-846 | Offering a committed block to the cache makes an entry that describes what the block holds. |
| ServingRuns.AdmissionSucceeds | src/source/scheduler/scheduler.cpp:391-425 | After a row is claimed, no check of the admission can fail: the retry is never taken. |
| ServingRuns.GrowTakesFresh | src/include/scheduler/prefix_cache.h:66-71 | A block taken for a row was referenced by no row, is none of the row's matched blocks, and is named by no entry afterwards. |
| ServingRuns.StepKeeps | src/source/scheduler/scheduler.cpp:282-343 | Every step of the protocol keeps the accounting, except exactly an admission that mounts a block twice; where no prompts fork it keeps accounting and contents. |
| StepEffects.StepEffect | src/source/scheduler/scheduler.cpp:282-343 | What each step does to its own sequence - tokens, blocks, progress, recording cursor, cells - and that no other sequence comes, goes or changes; growing fails if and only if the row is full or every block is referenced. |
| StepEffects.RecordedInSteps | src/source/scheduler/scheduler.cpp:833-846 | Recording several blocks in one call is a run of single recordings, each of which the sequence may make: what holds over every run holds for it. |
| ServingRuns.AccountsInOrder | src/include/scheduler/block_allocator.h:135-141 | In every run the accounting is in order up to a moment if and only if no admission before it mounted a block twice. |
| ServingRuns.EveryRun | src/include/scheduler/prefix_cache.h:48-77 | In every run and at every moment, where no two admitted prompts fork: the pool and cache are consistent, and every committed cell of every sequence was computed from that sequence's own tokens. |
| ForkRuns.ForkBreaks | src/include/scheduler/prefix_cache.h:54-64 | For any two prompts that fork there is a system and a run, admitting only them, after which a sequence has KV computed from another context. |
| ForkRuns.ExactlyForks | src/include/scheduler/prefix_cache.h:48-80 | For a given set of prompts, accounting and contents are in order in every system, every run and every moment if and only if no two of the prompts fork. |
| ForkRuns.ZeroPromptBreaks | src/source/scheduler/block_allocator.cpp:110-158 | A prompt of five tokens that, served twice, mounts one block at two places of a row and breaks accounting and contents. |
| ServingRuns.InitialOk | src/source/scheduler/block_allocator.cpp:7-24 | The empty system is in order. |
| ServingRuns.NothingLeaks | src/include/scheduler/block_allocator.h:135-141 | When no sequence is left, every block is free or kept for the cache alone. |
| KvClasses.BlockAllocator.constructor | src/source/scheduler/block_allocator.cpp:7-24 | All blocks free, block 0 handed out first. |
| KvClasses.BlockAllocator.ReclaimBlocks | src/source/scheduler/block_allocator.cpp:26-31 | Evicts exactly the shortfall, through the hook. |
| KvClasses.BlockAllocator.AllocateBlocks | src/source/scheduler/block_allocator.cpp:59-108 | First idle row, reclaim, pop: the new pool and cache are those of the operation on values; both checks on popped blocks hold. |
| KvClasses.BlockAllocator.AppendBlocks | src/source/scheduler/block_allocator.cpp:33-57 | The same for growth. |
| KvClasses.BlockAllocator.ReserveSharedPrefix | src/source/scheduler/block_allocator.cpp:110-158 | Succeeds if and only if every block is mountable, with the blocks at the front and their counts raised; otherwise the pool is untouched. |
| KvClasses.BlockAllocator.FreeBlocksFrom | src/source/scheduler/block_allocator.cpp:160-180 | The pool after cutting the row, the row given up when empty; any start, any row number. |
| KvClasses.BlockAllocator.FreeAll | src/source/scheduler/block_allocator.cpp:204-204 | The pool after giving the whole row up. |
| KvClasses.BlockAllocator.ReclaimableBlocksFrom | src/source/scheduler/block_allocator.cpp:182-194 | Exactly the number of blocks the cut would add to the free list. |
| KvClasses.BlockAllocator.EvictCachedBlock | src/source/scheduler/block_allocator.cpp:278-287 | Unpins and frees, or does nothing. |
| KvClasses.BlockAllocator.MarkCachedBlock | src/source/scheduler/block_allocator.cpp:269-276 | Pins a referenced block. |
| KvClasses.InvariantHolds | src/source/scheduler/block_allocator.cpp:302-338 | Returns true if and only if the invariant holds, aliases within a row included. |
| KvClasses.CountRow | src/source/scheduler/block_allocator.cpp:317-327 | The stamp of the last row that named a block detects every duplicate within a row and nothing else. |
| KvClasses.PrefixCache.Lookup | src/source/scheduler/prefix_cache.cpp:86-126 | The longest run of hits from the start of the prompt, and nothing is changed. |
| KvClasses.PrefixCache.CommitMounted | src/source/scheduler/prefix_cache.cpp:128-146 | The mounted entries become the most recent; the counters count one admission. |
| KvClasses.PrefixCache.RecordBlock | src/source/scheduler/prefix_cache.cpp:169-203 | One block offered to the cache: skipped, or inserted and pinned. |
| KvClasses.PrefixCache.InsertCommitted | src/source/scheduler/prefix_cache.cpp:148-206 | Records only whole computed blocks that may be shared, and all of them that the row holds; the chain stays in lockstep. |
| KvClasses.PrefixCache.EvictOldest | src/source/scheduler/prefix_cache.cpp:225-254 | The walk with its budget, as analysed by the lemmas above. |
| KvClasses.PrefixCache.Evict | src/source/scheduler/prefix_cache.cpp:208-223 | The same for a call, shortfalls counted. |
| LruLists.LruList.Unlink | src/source/scheduler/prefix_cache.cpp:64-70 | Pointer surgery on a doubly linked list removes exactly one node from the sequence it stands for. |
| LruLists.LruList.PushFront | src/source/scheduler/prefix_cache.cpp:72-78 | Adds a node in front. |
| LruLists.LruList.Touch | src/source/scheduler/prefix_cache.cpp:80-84 | Moves a node to the front and keeps the order of the others: the recency order of the cache after touching the entry. |
| LruLists.TouchedHashes | src/source/scheduler/prefix_cache.cpp:64-84 | With one node per hash, the linked list does to the recency order what the cache does to its sequence. |

## Left out

- Kernels, streams, graphs, attention and GEMM: their arithmetic is not in these files' state.
- Scheduling policy (victim choice, chunk budgets, queue order): any order of steps is allowed in the runs, so the results do not depend on it.
- KV quantisation counters, metrics, logging, benchmarks and the rest of the chat demo: single expressions or I/O.
- Hash table: the wyhash function is any function to 64 bits, allocator and move plumbing, `max_load_factor` setter, segmented vector, sets and `extract` are not modelled; the load factor is the default.
- Hash table: distances are unbounded; the packing of distance and fingerprint into 32 bits, and its overflow, are not modelled.
- Hash table: the shared probe loop of `try_emplace`, `emplace` and `replace`, and the repeated run and contraction loops of the scanners, are one method each here.
- Regular-expression engines: what RE2 and std::regex report is an arbitrary list of ordered, disjoint matches; the collapsed-alphabet form of a text that the fallback engine is run on is not modelled.
- Unicode data: letters, numbers and white space are assumed disjoint, no code point in range has an empty flag word, and lower-casing sends only A-Z, U+0130 and U+212A to ASCII letters.
- BytePair.BytePairMerge: positions are unbounded here and of type int in the source; pieces of 2^31 bytes or more are not modelled faithfully.
- Tiktoken.EncodeNative: what the two expressions match is given by functions of the remaining text that report non-empty matches; a pattern that matches the empty string is not modelled.
- DenseTable.Table.Replace: a valid index is stated for fewer than 2^32 entries; with exactly 2^32, which it accepts, every bucket is empty.
- DevicePools.AllocateLocked: stated for requests up to 2^64 - 256, the exact limit of the tiling (PoolBlocks.HandOutKeepsOk).
- CudaAllocators.CudaAllocator.Allocate: as AllocateLocked; the calling thread's device is a parameter, and a mutex makes each call one step.
- CudaAllocators.CudaAllocator.Release: pools are visited in any order; the source visits them in the order of device ids. At most one pool has the pointer.
- DevicePools.FreeRegions: the vector of kept blocks is a sequence; moving it is not modelled. The allocator's destructor, which returns every region, is left out.
- BlockPool: a row is the sequence of its used entries; the -1 padding up to the table width and the flat layout of all rows are not modelled. `inc_ref` and `dec_ref`, which nothing calls, are left out, as are the occupancy counters and the debug string.
- KvClasses.BlockAllocator.AllocateBlocks: the reclaim hook is the cache passed as an argument; a pool without a hook is not modelled.
- KvClasses.PrefixCache: entries are values keyed by hash and the recency list is a sequence; LruLists shows that the linked nodes implement such a sequence, operation by operation, but the cache is not built on them.
- Serving: a forward pass writes at once what its batch positions say; a failed pass, which retires every sequence, is a series of retirements. Recording goes block by block; InsertCommitted does several in one call.
- ServingRuns.AdmissionSucceeds: prompts longer than a row are rejected when they are submitted, and are excluded here.
