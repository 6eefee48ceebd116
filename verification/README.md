# A verified model of a from-scratch inference engine

The engine's arithmetic kernels sit on discrete machinery: a byte-level BPE tokenizer, a worker pool
with a hand-made barrier, a crash-restart outbox, a binary container format, bit-level codecs,
error-feedback quantizers, a ragged key/value cache and a sorted expert router. This project models
that machinery in Dafny and proves what it is meant to guarantee, for all inputs, all runs and all
interleavings. `dafny verify dfyconfig.toml` checks everything.

## What is modelled, and the main results

**Tokenizer** (`StrIntMap`, `GreedyMerge`, `BpeMerge`, `MergeLoop`, `Regex`, `PreTokenizer`,
`ByteText`, `BpeCodec`, `Tokenizer`, `Utf8Text`, `TokenizerMeaning`, `SplitMeaning`). The
open-addressing table is a first-wins map for every hash function, and its 32-bit sizing loop gives
enough slots exactly below 2^30 entries. The linked-list merge loop with lazily invalidated
candidates computes exactly the greedy rule "merge the lowest-ranked, then leftmost, adjacent pair
until none has a rank"; it fails exactly when the greedy rule needs more candidates than the buffer
holds, which no word of at most 5462 symbols does. The hand-coded pre-tokenizers cut exactly the
leftmost-first matches of their regular expressions, stated against a backtracking matcher, and
llama3 cuts only where qwen2 does. Encoding any bytes, valid UTF-8 or not, and decoding the ids
gives the same bytes back exactly when every special token the scan chooses in the text decodes to
itself, and so for every text if and only if all special tokens do; ASCII ones do.

**Worker pool** (`PoolState`, `PoolProof`, `PoolProgress`, `PoolFairness`, `PoolDispatch`). The
barrier is a transition system over the atomic steps of the dispatcher and the workers, in the spin
and in the condition-variable variant. In every reachable state the counters agree, the job record
is rewritten only while all workers are idle, no wake-up is lost and no row is computed twice; a
call returns only when every row was computed exactly once; while a call or the shutdown is under
way some thread can take a step that uses up a finite budget; and in every fair run the call ends
within a bound computed from that budget. The nine entry points share one record that they only
partly overwrite; each still makes the workers do what its own arguments mean, with one exception:
the batched g64 call handed the width reserved for group-256 weights reads whatever subcode an
earlier call left behind, and calls a null pointer when there was no such call.

**Outbox** (`OutboxLog`, `OutboxOps`, `Outbox`, `OutboxProof`, `OutboxSafety`, `OutboxProgress`,
`OutboxLines`, `OutboxProvenance`, `OutboxRefusal`, `OutboxRecords`, `OutboxMeaning`). The push
protocol as steps with a crash possible between any two and a network that delays, repeats or loses
requests. No byte below the checkpoint is dropped unless it is white space: it lies in a record that
parsed. Below the checkpoint every event and attribution has taken effect exactly once, with the
margin of its own batch; nothing beyond the outbox has any effect or provenance row; keys do not
depend on how the log was cut into runs. The margin sent with an attribution does depend on the
cuts, and the exact condition is stated. A run that crashes and failures leave alone ends within a
bound when its requests arrive.

Three results are failures, each with its exact condition. Provenance rows overwrite each other by
nine columns: every traced attribution below the checkpoint has a row with its columns, but its own
row is safe between runs if and only if no other committed one asks for a different row with the
same columns; two runs of one line each lose a row. On a database that refuses an upsert naming one
row twice, as PostgreSQL does, an outbox can be committed if and only if none of its provenance
requests of up to twenty rows repeats the nine columns; one attribution logged twice close together
blocks every later run. A rerun refuses to resume only after a crash between the checkpoint write
and the unlink; there nothing is lost or doubled, but no later run gets past it. Reachable witnesses
are given for all three.

"Has taken effect" means that the ingest key is claimed: the increment function claims the key of an
attribution even when no `moe_role_precision_state` row matches its update.

**GGUF** (`GgufFormat`, `GgufRoundTrip`, `GgufSizes`, `GgufTypes`, `GgufMeaning`, `GgufWriter`,
`GgufReader`). Opening what the writer wrote gives the same pairs, the same tensors and each
tensor's bytes at aligned disjoint extents if and only if reader and writer agree on the alignment;
a concrete sequence of calls shows a file that opens and hands out padding as tensor data. Of any
bytes that open, a tensor's byte count is the true size of its dimensions if and only if element and
byte count stay below 2^64; a file that opens with 2^64 elements and no bytes is shown.

**Quantizers and codecs** (`ErrorFeedback`, `BitPlanes`, `Qng64`, `Qng64Layouts`, `BlockCodecs`,
`BlockRows`, `CodeLayouts`, `KleidiPack`, `KleidiBuffer`, `KleidiLayout`). In exact arithmetic the
error of every prefix sum is at most half a step, clamping included, and above its floor the scale
is the smallest that reaches every input. Bit planes, nibbles and the MLX bit stream hold the same
codes. The Q4_0, Q5_0, Q4_K and Q6_K block decoders return every code, scale and minimum the
encoders packed, over rows of any length. The two KleidiAI packing paths write the same buffer word
by word, and the pack's conversion undoes the engine's own nibble permutation.

**Cache, routing and integer kernels** (`RaggedCache`, `SortedGather`, `SdotDot`, `SdotTiler`,
`SdotMeaning`). Over any run that keeps the calling discipline every row is what its request
computes alone with a growing history. Sorted expert routing equals direct routing. With exact
floats the SDOT kernels compute the scaled dot product, element by element. The tiled SDOT kernels
equal the single-column kernel term by term with every cell stored to once, and no int32 lane,
product or sum overflows.

## How it is modelled

Code that updates state is a class or a method on arrays, proved against a specification function;
the properties are lemmas about those functions. `Common` holds the shared datatypes and one lemma
on division. Every lemma carries `{:induction false}`, so that no proof rests on automatic
induction. The definitions that specify these programs are themselves tied to plain statements,
mostly in the modules named after meaning, layout, types and records: bytes and tags as numbers,
choices by what they maximise, positions by arithmetic, and small worked examples.

Machine words are written out where they matter: lengths and offsets wrap at 2^64 in the GGUF
reader, SDOT lanes are bounded against int32, bytes and planes are 8-bit vectors. Floats are exact
reals in the quantizers and opaque values under opaque operations in the kernels, so that "the same
bits" is equality of terms. A FATAL exit is a result value.

Where comments and code disagree, the model follows the code. The header of `d4_supabase_push.py`
(lines 2-5) says a failed request is reported and the push goes on; `run_once` stops at the first
operation that fails (lines 318-327), and that is what the model does. The comment at `q4gemv.h:639`
speaks of seven dispatch functions; there are nine, two of them in `q4gemv_g256.h`.
`gguf_w_kv_int_raw` accepts any integer type for `general.alignment` (`gguf_write.c:106-115`), the
reader honours three (`gguf_load.c:192-195`): this is the condition in `GgufRoundTrip.RoundTripIff`.

## Model

| member | source | states |
|---|---|---|
| StrIntMaps.StrIntMap.constructor | bpe_tokenizer.c:332-338 | the table is empty and has more than twice `expected_n` slots, and never more than four times that or 16 |
| StrIntMaps.SizingEndsIff | bpe_tokenizer.c:332-334 | in 32-bit arithmetic the sizing loop ends if and only if the wrapped `expected_n * 2 + 1` is at most 2^31; otherwise the capacity turns 0 and stays 0 |
| StrIntMaps.SizingSufficesIff | bpe_tokenizer.c:332-334 | it ends with more than twice `expected_n` slots if and only if there are fewer than 2^30 entries |
| StrIntMaps.StrIntMap.Probe | bpe_tokenizer.c:343-346 | for every hash, probing ends after fewer steps than there are slots, at the key or at the free slot ending its chain, having passed only other keys |
| StrIntMaps.StrIntMap.Put | bpe_tokenizer.c:340-352 | the abstract map gains the key unless it already has it: first put wins; a free slot always remains while fewer keys than slots minus one are stored |
| StrIntMaps.StrIntMap.Get | bpe_tokenizer.c:354-366 | returns the value the abstract map has for the key, and nothing when it has none |
| StrIntMaps.EmptySlotExists | bpe_tokenizer.c:334 | fewer used entries than slots leave a free slot, so every probe ends |
| StrIntMaps.FreeSlotMeansAbsent | bpe_tokenizer.c:358-365 | a free slot reached along a key's chain proves the key absent from the whole table |
| StrIntMaps.FillKeepsChains | bpe_tokenizer.c:347-351 | storing at the end of a chain leaves every other key reachable along its own chain |
| StrIntMaps.FillRepresents | bpe_tokenizer.c:347-351 | after the store the table stands for the old map with one more key |
| StrIntMaps.Fill | bpe_tokenizer.c:340-352 | one insertion keeps the probe chains, the represented map and the fill count together |
| StrIntMaps.UsedCountFill | bpe_tokenizer.c:350-351 | filling a free slot raises the number of used slots by exactly one |
| StrIntMaps.FirstIndexIsFirst | bpe_tokenizer.c:863-871 | the map a string array is meant to become sends every string to its first index and knows no other key |
| StrIntMaps.Load | bpe_tokenizer.c:863-871 | loading an array of n strings into a table made for n never runs out of slots and gives that first-index map |
| GreedyMerge.Best | bpe_tokenizer.c:811-821 | the pair to merge is one of lowest rank, leftmost among equals, and there is none exactly when no adjacent pair has a rank |
| GreedyMerge.BestIsUnique | bpe_tokenizer.c:811-821 | only one pair can be best, so any search that finds a best pair finds this one |
| GreedyMerge.LaterAdds | bpe_tokenizer.c:832-833 | from n pieces on, merging adds at most 2(n-1) further candidates |
| GreedyMerge.TotalAdds | bpe_tokenizer.c:795-833 | over the whole merging at most 3(n-1) candidates are ever added |
| GreedyMerge.MergeKeepsText | bpe_tokenizer.c:827-830 | merging two neighbours leaves the concatenated text unchanged |
| GreedyMerge.GreedyKeepsText | bpe_tokenizer.c:811-834 | the final pieces concatenate to the word |
| GreedyMerge.GreedyResult | bpe_tokenizer.c:811-834 | no adjacent pair of the final pieces has a rank, and a non-empty word keeps at least one piece |
| BpeMerge.SplitCharsText | bpe_tokenizer.c:775-792 | cutting a word into characters loses nothing, malformed UTF-8 included, and a non-empty word gives a symbol |
| BpeMerge.ShortWordsNeverOverflow | bpe_tokenizer.c:801 | a word of at most 5462 symbols never fills the candidate buffer: its outcome is the greedy one |
| BpeMerge.SizeCheckIsExact | bpe_tokenizer.c:824-825 | the lazy size check passes if and only if the two symbols are live, still adjacent and both unchanged since the candidate was made |
| BpeMerge.PickedIsBest | bpe_tokenizer.c:811-825 | a picked candidate that passes the check names exactly the pair the greedy rule merges next |
| BpeMerge.DropStale | bpe_tokenizer.c:821-825 | dropping a candidate that fails the check leaves every ranked adjacent pair with an alive candidate |
| BpeMerge.MergeKeepsLinks | bpe_tokenizer.c:827-830 | after a merge the list still links exactly the live symbols, in order, covering the word |
| BpeMerge.MergePieces | bpe_tokenizer.c:827-830 | the link surgery changes the live texts exactly as the greedy rule's merge does |
| BpeMerge.MergeKeepsCandidates | bpe_tokenizer.c:827-830 | every older candidate still fits its symbols: symbols only grow or become empty |
| BpeMerge.MergeKeepsCover | bpe_tokenizer.c:827-833 | a ranked pair not touching the merged piece keeps its alive candidate |
| BpeMerge.AliveCountKill | bpe_tokenizer.c:821 | taking a candidate lowers the number of alive ones by exactly one |
| MergeLoop.BpeTables.FindRank | bpe_tokenizer.c:758-767 | the rank lookup answers for the joined key and refuses keys that do not fit the 512-byte buffer |
| MergeLoop.MergeBuffers.LoadSymbols | bpe_tokenizer.c:775-792 | succeeds exactly when the word has at most 8192 characters, and then links them in order |
| MergeLoop.FreshSymbolsAreLinked | bpe_tokenizer.c:785-790 | symbols cut one after another form a valid list over the whole word |
| MergeLoop.MergeBuffers.TryAddBigram | bpe_tokenizer.c:795-807 | fails exactly when a ranked pair meets a full buffer; otherwise appends its candidate or nothing |
| MergeLoop.AddedPair | bpe_tokenizer.c:795-807 | for a live adjacent pair a candidate is added exactly when the pair has a rank, with that rank and size |
| MergeLoop.MergeBuffers.PickBest | bpe_tokenizer.c:812-820 | finds the alive candidate of lowest rank, leftmost among equals, or none when none is alive |
| MergeLoop.MergeBuffers.MergePair | bpe_tokenizer.c:827-830 | the four in-place updates are the list removal of the right symbol |
| MergeLoop.AddInitialPairs | bpe_tokenizer.c:809 | sets up the loop invariant, or fails only if the greedy rule itself would overflow the buffer |
| MergeLoop.StaleStep | bpe_tokenizer.c:823-825 | skipping a stale candidate keeps the loop invariant and the greedy result it leads to |
| MergeLoop.MergeStep | bpe_tokenizer.c:823-830 | the merged pair is the greedy one, and links, texts and candidates stay right |
| MergeLoop.AttemptBefore | bpe_tokenizer.c:832 | the attempt to the left finds its pair exactly when it has a rank |
| MergeLoop.AttemptAfter | bpe_tokenizer.c:833 | the attempt to the right finds its pair exactly when it has a rank |
| MergeLoop.AddedAfterMergeOk | bpe_tokenizer.c:832-833 | the two attempts add exactly the candidates the two new neighbours need |
| MergeLoop.MergeCovers | bpe_tokenizer.c:827-833 | after a merge and its two attempts every ranked pair is covered again |
| MergeLoop.MergeDone | bpe_tokenizer.c:827-833 | the loop invariant holds again and the candidates used so far stay within the greedy total |
| MergeLoop.TakeCandidate | bpe_tokenizer.c:821-833 | one turn keeps the invariant and lowers 2 * live + alive; it fails only on a genuine overflow |
| MergeLoop.NothingAlive | bpe_tokenizer.c:820 | when no candidate is alive the pieces are the greedy result and the total is used up exactly |
| MergeLoop.MergeAll | bpe_tokenizer.c:811-834 | ends with the greedy pieces, and fails exactly when the greedy total exceeds the buffer |
| MergeLoop.EmitIds | bpe_tokenizer.c:837-849 | writes the ids of the pieces in order; refuses at the first that does not fit, FATAL at the first that is no token |
| MergeLoop.MergeWord | bpe_tokenizer.c:769-850 | the whole imperative merge equals the specification stated with the greedy rule alone, for every vocabulary, word and capacity |
| Utf8Text.CharacterIsRead | bpe_tokenizer.c:371-390 | every well-formed UTF-8 character is read as its code point and consumes just its bytes |
| Utf8Text.ReadAnyway | bpe_tokenizer.c:372-375 | lengths by the first four bits; a character cut off by the end is U+FFFD, one byte long |
| Utf8Text.TextIsRead | bpe_tokenizer.c:925-933 | a well-formed text has the code points it was written with |
| Utf8Text.WordIsCut | bpe_tokenizer.c:775-792 | the merge loop cuts a well-formed word into its characters |
| Utf8Text.TableAsBuilt | bpe_tokenizer.c:20-282 | a printable byte stands for itself, any other for U+0100 plus the number of such bytes before it |
| Utf8Text.TableReadBack | bpe_tokenizer.c:283-320 | a character decodes to a byte if and only if it is that byte's image |
| Utf8Text.CharacterIsDecoded | bpe_tokenizer.c:1018-1029 | a well-formed character of a token decodes to its byte when it is an image, and is copied when it is not |
| TokenizerMeaning.RankIs | bpe_tokenizer.c:758-767 | a pair has a rank if and only if left, space and right, at most 511 bytes, is a merge entry with that index as a C int |
| TokenizerMeaning.BestIs | bpe_tokenizer.c:811-820 | the next pair is one such that none has a lower rank and none further left the same |
| TokenizerMeaning.MergingIs | bpe_tokenizer.c:827-830 | a merge joins pieces k and k + 1 and goes on until no pair has a rank |
| TokenizerMeaning.EmitIs | bpe_tokenizer.c:837-849 | exactly when the ids are written, refused and fatal, and which ids |
| TokenizerMeaning.WordLimits | bpe_tokenizer.c:775-801 | words over 8192 characters or with over 16384 candidates are refused, and only these |
| TokenizerMeaning.TextLimits | bpe_tokenizer.c:921-961 | the limits of 65536 code points, 16384 spans and 8192 mapped bytes |
| TokenizerMeaning.LongestSpecialIs | bpe_tokenizer.c:976-985 | at every position the longest special that stands there, the first among equals, and none only when none stands |
| TokenizerMeaning.SpecialsAre | bpe_tokenizer.c:888-905 | the literal-match list is the tokens of a type other than 1 and 5, in order |
| TokenizerMeaning.EncodeCapped | bpe_tokenizer.c:971-1006 | a smaller buffer changes nothing but that exactly the ids that do not fit are refused |
| TokenizerMeaning.DecodeTooSmall | bpe_tokenizer.c:1023-1026 | ids that stand for more bytes than the buffer holds are reported |
| TokenizerMeaning.StretchIs | bpe_tokenizer.c:975-1004 | the stretch before the next special is encoded as plain text at once, and the special follows with its id |
| TokenizerMeaning.PlainIsNormal | bpe_tokenizer.c:921-969 | a text in which no special stands is encoded as plain text |
| SplitMeaning.ClassesAre | bpe_tokenizer.c:427-518 | the character classes of the three regular expressions in code points and flags |
| SplitMeaning.ContractionIs | bpe_tokenizer.c:431-445 | the contractions in code points, in either case for qwen2 and llama3 |
| SplitMeaning.NumberIs | bpe_tokenizer.c:457-462 | a llama3 number span is a maximal run of up to three, a qwen2 one a single number |
| SplitMeaning.Digits | bpe_tokenizer.c:457-462 | 12345 is cut as one, as 123 and 45, and into digits by gpt2, llama3 and qwen2 |
| SplitMeaning.UpperContraction | bpe_tokenizer.c:431-445 | an upper-case contraction is cut off by qwen2 and llama3 but not by gpt2 |
| SplitMeaning.Spaces | bpe_tokenizer.c:498-508 | the last of several spaces goes with the word after it, and spaces at the end stay together |
| SplitMeaning.SymbolsAndTabs | bpe_tokenizer.c:464-480 | punctuation takes line breaks along and a tab may lead a word, but not for gpt2 |
| SplitMeaning.Breaks | bpe_tokenizer.c:484-496 | white space up to its last line break is one span for qwen2 and llama3 |
| Regex.RepEndsAre | bpe_tokenizer.c:447-454 | a greedy repetition tries its longest run first and gives back one character at a time |
| Regex.RepMatch | bpe_tokenizer.c:457-462 | a bounded greedy repetition matches its longest run exactly when that is long enough |
| Regex.CatMatchLongest | bpe_tokenizer.c:464-478 | what follows a repetition is tried after the longest run first |
| Regex.CatMatchBacktrack | bpe_tokenizer.c:492-496 | otherwise the match is at the first shorter run after which the rest matches |
| Regex.CatMatchNone | bpe_tokenizer.c:515-518 | no match when the rest matches after no run |
| PreTokenizer.ContractionMatch | bpe_tokenizer.c:431-445 | the hand-coded contraction test is the regex group, case folded for qwen2 and llama3 and not for gpt2 |
| PreTokenizer.WordMatch | bpe_tokenizer.c:447-455 | the optional leading character plus letters, as the code tests it, is the regex alternative with its give-back |
| PreTokenizer.SymbolMatch | bpe_tokenizer.c:464-480 | the punctuation alternative with an optional space and trailing line breaks is its regex |
| PreTokenizer.NewlineMatch | bpe_tokenizer.c:484-496 | remembering the last line break of the white-space run is what the backtracking `\s*[\r\n]+` does |
| PreTokenizer.TrailingMatch | bpe_tokenizer.c:498-508 | leaving the last blank to what follows is what `\s+(?!\S)` does, the end of text included |
| PreTokenizer.QwenLlamaIsMatch | bpe_tokenizer.c:427-513 | one turn of the qwen2 or llama3 loop ends at the leftmost-first match of the whole alternation |
| PreTokenizer.Gpt2IsMatch | bpe_tokenizer.c:651-735 | the same for the gpt2 loop |
| PreTokenizer.SpanIsMatch | bpe_tokenizer.c:407-741 | every span of every split is the leftmost-first match at its start |
| PreTokenizer.SplitTiles | bpe_tokenizer.c:414-425 | the spans are contiguous, non-empty, cover the text exactly, each is a match, and there are at most `cap` |
| PreTokenizer.Qwen2WalksNumbers | bpe_tokenizer.c:457-462 | from inside a run of numbers qwen2 reaches every later cut it would reach from the end of the run |
| PreTokenizer.NumbersInThrees | bpe_tokenizer.c:525-644 | a chunk of llama3's number loop is the span its regex cuts at that place |
| PreTokenizer.Llama3CutsAreQwen2Cuts | bpe_tokenizer.c:525-644 | every position where llama3 ends a span is one where qwen2 ends a span |
| PreTokenizer.Cutter.AddToken | bpe_tokenizer.c:414-425 | extends the spans by one, fails exactly when they no longer fit, and drops empty ones |
| PreTokenizer.Cutter.ScanWhitespace | bpe_tokenizer.c:484-490 | measures the white-space run and the end of its last line break |
| PreTokenizer.Cutter.CutQwenLlama | bpe_tokenizer.c:427-513 | one turn advances by whole matches or reports that the full split does not fit |
| PreTokenizer.Cutter.CutNumbersInThrees | bpe_tokenizer.c:525-644 | llama3's chunks of three are exactly the spans the regex would cut one by one |
| PreTokenizer.Cutter.CutGpt2 | bpe_tokenizer.c:672-735 | one turn of the gpt2 loop advances by one match or reports that the split does not fit |
| PreTokenizer.SplitSpan | bpe_tokenizer.c:407-741 | the three loops return exactly the specified spans, or -1 exactly when there are more than `cap` |
| ByteText.TablesAreInverse | bpe_tokenizer.c:20-320 | the byte-to-character and character-to-byte tables undo each other in both directions |
| ByteText.MappedByteDecodes | bpe_tokenizer.c:371-390 | the UTF-8 form of a mapped byte decodes to its character and consumes exactly its own bytes |
| ByteText.DecodeUndoesMap | bpe_tokenizer.c:1017-1030 | decoding a token that is mapped bytes returns those bytes |
| ByteText.DecodeNeverGrows | bpe_tokenizer.c:1017-1030 | a decoded token is never longer than its text |
| ByteText.PlainIsExact | bpe_tokenizer.c:1022-1029 | a text decodes to itself if and only if each of its mapped characters is a single byte equal to its image |
| ByteText.AsciiIsPlain | bpe_tokenizer.c:1022-1029 | ASCII texts decode to themselves |
| ByteText.MappedSpecialIsNotPlain | bpe_tokenizer.c:1022-1024 | U+0100 written in a special token decodes to the single byte 0 |
| BpeCodec.LongestSpecial | bpe_tokenizer.c:976-985 | the pre-scan's choice is a listed special token of non-zero length that stands at the position |
| BpeCodec.StandsForDecodes | bpe_tokenizer.c:1008-1033 | ids whose tokens stand for some bytes decode to those bytes whenever the buffer holds them |
| BpeCodec.SplitMapped | bpe_tokenizer.c:775-792 | the characters of a mapped word are the mapped bytes one by one |
| BpeCodec.MergeMapped | bpe_tokenizer.c:811-834 | merging never cuts inside a mapped byte: the pieces stay images of consecutive byte strings |
| BpeCodec.EmitStandsFor | bpe_tokenizer.c:837-849 | the emitted ids stand for the pieces' bytes, duplicate vocabulary entries included |
| BpeCodec.WordRoundTrip | bpe_tokenizer.c:955-964 | the ids of a span stand for the bytes of the span |
| BpeCodec.SpansRoundTrip | bpe_tokenizer.c:951-965 | the ids of all spans stand for the text from the first span on |
| BpeCodec.NormalRoundTrip | bpe_tokenizer.c:921-969 | a text without special tokens comes back byte for byte |
| BpeCodec.FromRoundTrip | bpe_tokenizer.c:971-1006 | from any scan position the ids still to come stand for the plain segments as they are and the chosen specials as they decode |
| BpeCodec.MeantIsTextIff | bpe_tokenizer.c:971-1033 | what the ids stand for is never longer than the text, and is the text if and only if every special chosen decodes to itself |
| BpeCodec.TextComesBackIff | bpe_tokenizer.c:971-1033 | one text comes back through encode and decode if and only if every special the scan chooses in it decodes to itself; otherwise exactly what is meant comes back |
| BpeCodec.RoundTrip | bpe_tokenizer.c:971-1033 | decode undoes encode on arbitrary bytes when every special text decodes to itself |
| BpeCodec.AsciiSpecialsRoundTrip | bpe_tokenizer.c:971-1033 | decode undoes encode on arbitrary bytes when the special texts are ASCII |
| BpeCodec.SpecialIsFound | bpe_tokenizer.c:976-985 | a special token's text given as the whole input is found at position 0 |
| BpeCodec.BadSpecialBreaks | bpe_tokenizer.c:1022-1024 | a special text that does not decode to itself is itself a text that does not come back |
| BpeCodec.RoundTripIffPlain | bpe_tokenizer.c:971-1033 | for a vocabulary the round trip holds on all texts if and only if its special tokens decode to themselves |
| Tokenizer.SpecialsAreTokens | bpe_tokenizer.c:888-905 | every special entry names a token of the vocabulary by its index |
| Tokenizer.LoadedIsValid | bpe_tokenizer.c:854-910 | every vocabulary that can be loaded meets the preconditions of the round trip |
| Tokenizer.CollectSpecials | bpe_tokenizer.c:888-905 | the special list is every token that is neither normal nor unused, in order, and empty when the type array does not fit |
| Tokenizer.BpeVocab.constructor | bpe_tokenizer.c:854-910 | the loaded object holds the first-index maps and special tokens of the file's arrays |
| Tokenizer.BpeVocab.Scan | bpe_tokenizer.c:925-933 | code points and byte offsets of the text, failing exactly beyond 65536 code points |
| Tokenizer.BpeVocab.MapWord | bpe_tokenizer.c:952-961 | maps the span's bytes, failing exactly when the mapped word exceeds the buffer |
| Tokenizer.BpeVocab.EncodePlain | bpe_tokenizer.c:921-969 | equals the specified encoding of text without special tokens, every failure included |
| Tokenizer.BpeVocab.FindSpecial | bpe_tokenizer.c:976-985 | finds the longest special token at a position, the first among equals |
| Tokenizer.BpeVocab.Encode | bpe_tokenizer.c:971-1006 | equals the specified encoding, every failure included |
| Tokenizer.EncodeStep | bpe_tokenizer.c:975-999 | what one position of the scan contributes: nothing, or the pending text followed by the special id |
| Tokenizer.BpeVocab.Decode | bpe_tokenizer.c:1008-1033 | equals the specified decoding, the small buffer, a negative capacity and the bad id included |
| Tokenizer.EncodeThenDecode | bpe_tokenizer.c:971-1033 | the public pair of calls returns the input exactly when encoding succeeds and every special chosen decodes to itself |
| PoolState.RangesCoverAll | q4gemv.h:458-459 | the blocks of all threads together reach past the last row |
| PoolState.RangesPartition | q4gemv.h:458-459 | every row lies in the range of exactly one thread, for every row and thread count |
| PoolProof.DestroyJoinsAll | q4gemv.h:624-634 | destroy returns only after every worker is gone, and nothing moves after it |
| PoolProof.CountUpdate | q4gemv.h:578 | replacing one worker changes the number of finished workers by exactly that worker |
| PoolProof.CountAll | q4gemv.h:655 | when all are counted, all have finished |
| PoolProof.WorkerStepKeeps | q4gemv.h:544-582 | every atomic step of a worker, in both variants, keeps the barrier invariant |
| PoolProof.DispatcherStepKeeps | q4gemv.h:613-670 | every atomic step of start, go_and_wait and destroy keeps it |
| PoolProof.OtherStepsKeep | q4gemv.h:672-695 | beginning a call with any row count, beginning shutdown and spurious wake-ups keep it |
| PoolProof.StepKeepsInv | q4gemv.h:544-670 | every step of any thread keeps it |
| PoolProof.ReachableInv | q4gemv.h:544-670 | it holds in every state any interleaving can reach |
| PoolProof.BarrierCounts | q4gemv.h:559-565 | in every reachable state the generation is 0 or 1 ahead of each worker, during a call the done count is 1 plus the finished workers, and outside a call all workers have finished |
| PoolProof.NoLostWakeUp | q4gemv.h:570-579 | in every reachable state a thread asleep on a condition has nothing to do yet, or the broadcast or signal is about to be sent |
| PoolProof.NoRowTwice | q4gemv.h:456-459 | in every reachable state no row has been computed more than once for the current job |
| PoolProof.OwnerOf | q4gemv.h:458-459 | every row has one owner and only one |
| PoolProof.ReturnMeansDone | q4gemv.h:645-670 | go_and_wait returns only when every row of the job has been computed exactly once |
| PoolProgress.ProductiveStepsShrink | q4gemv.h:544-670 | every step other than an empty poll or a spurious wake-up uses up a finite budget |
| PoolProgress.EmptyPollsChangeNothing | q4gemv.h:559-562 | an empty poll leaves that budget as it was |
| PoolProgress.UnfinishedMoves | q4gemv.h:655-668 | while a call waits for an unfinished worker, that worker or the mutex holder can make progress |
| PoolProgress.JoinMoves | q4gemv.h:632 | while shutdown joins, some worker or the dispatcher can make progress |
| PoolProgress.SomethingMoves | q4gemv.h:544-670 | no reachable state deadlocks: unless the dispatcher is idle or done, some thread can make progress |
| PoolFairness.WakeCosts | q4gemv.h:570-572 | a spurious wake-up costs at most two steps of the budget |
| PoolFairness.PollKeepsProductive | q4gemv.h:559-562 | an empty poll of one thread takes no productive step away from another |
| PoolFairness.WindowSpends | q4gemv.h:544-670 | over any steps away from rest the budget never grows, and it stays the same only if all of them were empty polls |
| PoolFairness.FairWindow | q4gemv.h:544-670 | one fair window away from rest uses up budget |
| PoolFairness.EveryCallEnds | q4gemv.h:544-670 | under every bounded-fair schedule, spurious wake-ups included, whatever call, start or destroy is under way ends within the fairness bound times the budget |
| PoolDispatch.MeaningFits | q4gemv.h:672-791 | what a call means fits its operands: a row of weights fills row_bytes, scales are one to 64 elements or to 256, and 8-bit weights are read exactly where the call says so |
| PoolDispatch.MeaningReads | q4gemv.h:672-791 | each call's kernel and activations: floats, the pool's scratch, split only for 4-bit weights, or the caller's columns |
| PoolDispatch.RefusedIff | q4gemv.h:782-783 | a call is refused if and only if its rows are too long, are not whole groups of 256 where needed, or it has no column or more than 64 |
| PoolDispatch.Q4Pool.constructor | q4gemv.h:584-609 | a fresh pool's job record has both sdot flags clear and no group-256 kernel installed |
| PoolDispatch.Q4Pool.CallGemvQ4 | q4gemv.h:672-681 | from any record with clear flags the workers take the plain 4-bit branch on this call's operands, and the flags are clear again |
| PoolDispatch.Q4Pool.CallGemvQ4Fused | q4gemv.h:686-695 | the same for the fused branch, which does not set sdot itself |
| PoolDispatch.Q4Pool.CallGemvQ4Sdot | q4gemv.h:701-722 | the workers take the single-column 4-bit SDOT branch on the split scratch; flags clear afterwards |
| PoolDispatch.Q4Pool.CallGemvQ8Sdot | q4gemv.h:726-746 | the 8-bit SDOT branch on the unsplit scratch; flags clear afterwards |
| PoolDispatch.Q4Pool.CallGemvQ8 | q4gemv.h:748-757 | the plain 8-bit branch, although sdot is never reset here |
| PoolDispatch.Q4Pool.CallGemm | q4gemv.h:761-769 | the batched plain branch for every `bits`, 8-bit exactly for 8, although sdot is never reset here |
| PoolDispatch.Q4Pool.CallGemmSdot | q4gemv.h:779-791 | for every `bits` but the sentinel the tiled SDOT branch on the caller's columns; at the sentinel the group-256 tile with the subcode the record still holds, or a null call when no group-256 call came before; both flags clear afterwards |
| PoolDispatch.Q4Pool.CallGemvG256 | q4gemv_g256.h:339-364 | the group-256 row branch; the sentinel width never outlives a call with sdot set |
| PoolDispatch.Q4Pool.CallGemmG256 | q4gemv_g256.h:368-383 | the group-256 tile branch; both flags clear afterwards |
| PoolDispatch.Q4Pool.Perform | q4gemv.h:672-791 | each of the nine calls does what its own arguments and, for the sentinel width, the last subcode say |
| PoolDispatch.MeantIff | q4gemv.h:466-476 | a call's work is what its own arguments mean, whatever earlier calls left in the record, if and only if it is refused or is not the batched g64 call with the sentinel width |
| PoolDispatch.NullCallIff | q4gemv.h:466-479 | a null kernel pointer is called if and only if the call is the batched g64 call with the sentinel width, is not refused, has a row to compute, and no group-256 call went through the record before |
| PoolDispatch.PerformAll | q4gemv.h:672-791 | over any sequence of calls on a fresh pool each runs the branch its own arguments mean exactly when it is not that sentinel call, which reads the subcode of the last group-256 call, up to the first FATAL argument or null call |
| OutboxLog.RecordsStable | d4_supabase_push.py:155-173 | appending to the log changes no complete record, its offset or its bytes |
| OutboxLog.CutsDoNotMatter | d4_supabase_push.py:147-174 | wherever the log is cut after a newline, the records, offsets and bytes are the same: keys do not depend on the runs |
| OutboxLog.RecordsInOrder | d4_supabase_push.py:154-173 | records start inside their range, at strictly increasing offsets |
| OutboxLog.DecimalInjective | d4_supabase_push.py:167 | different offsets have different decimal forms |
| OutboxLog.SeedInjective | d4_supabase_push.py:164-170 | path, offset and bytes can be read back from the seed, colons in the record included |
| OutboxLog.IdInjective | d4_supabase_push.py:164-171 | different records of a log have different ingest ids when the hash is injective |
| OutboxLog.InjectiveHashExists | d4_supabase_push.py:164-171 | the assumption on the hash can be met: some environment has an injective one |
| OutboxLog.CutAtNewline | d4_supabase_push.py:149-152 | the cut is just after the last newline, or at the offset when there is none |
| OutboxLog.ReadLines | d4_supabase_push.py:155-173 | returns the parsed records with their ids, or fails exactly when one of them does not parse |
| OutboxLog.ReadCompleteRecords | d4_supabase_push.py:138-174 | reports a shrunk log, a bad record, or exactly the records up to the last newline and the new end |
| OutboxOps.IndexEvents | d4_supabase_push.py:178-186 | for every key: the first event with it, and whether there are several |
| OutboxOps.LookUp | d4_supabase_push.py:205-208 | the event found for a key is the only one in the batch that has it |
| OutboxOps.Collect | d4_supabase_push.py:188-241 | the three lists are what the records ask for, in order, with the counts |
| OutboxOps.ChunkInto | d4_supabase_push.py:244-253 | appends the items in batches of at most 20, in order |
| OutboxOps.BuildOperations | d4_supabase_push.py:177-254 | the operations and counts are the specified ones |
| OutboxOps.BuildCarries | d4_supabase_push.py:177-254 | the operations carry an item if and only if some record asks for it |
| OutboxOps.BuildIsFresh | d4_supabase_push.py:243-253 | nothing is done yet, no batch is empty or over 20 rows, every increment is a call of its own |
| OutboxOps.MarginDependsOnTheCut | d4_supabase_push.py:205-215 | an event and an attribution, in either order, show that the margin sent does depend on where the log was cut |
| OutboxOps.CutsKeepTheEventIff | d4_supabase_push.py:178-208 | with records cut off before and after the batch, the event found for a key is unchanged if and only if none of them has the key, two in the batch do, or none in the batch and two outside |
| OutboxOps.CutsKeepTheMarginIff | d4_supabase_push.py:205-211 | the margin is unchanged if and only if the event is, or the one event lost or gained has no margin |
| OutboxOps.CutsKeepTheItemsIff | d4_supabase_push.py:205-241 | the increment sent for an attribution does not depend on the cuts if and only if its margin does not; its provenance row if and only if it has none or the event does not |
| OutboxProof.KeyDeterminesItem | d4_supabase_push.py:164-171 | over all runs one ingest id stands for one payload |
| OutboxProof.OnePlace | d4_supabase_push.py:154-173 | where a record starts determines its batch and its place in it |
| OutboxProof.ResumeOpens | d4_supabase_push.py:278-293 | a rerun that finds an outbox starting at its checkpoint resumes it: the digest fits because the log only grew |
| OutboxProof.BuiltOutbox | d4_supabase_push.py:294-316 | a new outbox covers exactly the bytes up to the last newline and nothing of it is marked done |
| OutboxProof.BatchItems | d4_supabase_push.py:188-254 | a batch asks for exactly the items of its requests |
| OutboxProof.OutboxCarries | d4_supabase_push.py:302-316 | an outbox holds a request if and only if its batch's operations do |
| OutboxProof.ArriveLands | supabase_migration_telemetry_ingest_idempotency.sql:18-55 | what has landed stays, and everything in an arriving request lands or finds its key claimed |
| OutboxProof.ArriveWrites | d4_supabase_push.py:66-77 | after a request the provenance row under a key is the request's last one with these columns, or the one before |
| OutboxProof.WritesOnlyRow | d4_supabase_push.py:66-77 | without repeated columns every row of a request is the one it leaves |
| OutboxProof.AcceptedLanded | supabase_migration_telemetry_ingest_idempotency.sql:18-55 | when a key that is asked for is claimed, what took effect under it is this very item |
| OutboxProof.DeliveredSettled | supabase_migration_telemetry_ingest_idempotency.sql:18-55 | after a request that is not refused arrives, everything in it has taken effect |
| OutboxProof.AppendKeeps | d4_supabase_push.py:138-174 | appending to the log keeps the protocol invariant |
| OutboxProof.StartKeeps | d4_supabase_push.py:271-314 | starting a run, resuming or not, keeps it |
| OutboxProof.SendKeeps | d4_supabase_push.py:321 | sending an operation keeps it |
| OutboxProof.DeliverKeeps | supabase_migration_telemetry_ingest_idempotency.sql:18-55 | a request arriving at the server, late or repeated, keeps it |
| OutboxProof.AckKeeps | d4_supabase_push.py:321-328 | a success reply keeps it: what is marked done has taken effect |
| OutboxProof.SaveKeeps | d4_supabase_push.py:329 | replacing the outbox file keeps it |
| OutboxProof.WriteOffsetKeeps | d4_supabase_push.py:331-332 | moving the checkpoint keeps it: everything below has taken effect |
| OutboxProof.UnlinkKeeps | d4_supabase_push.py:333 | removing the outbox keeps it |
| OutboxProof.StepKeeps | d4_supabase_push.py:271-341 | every step, a crash included, keeps it |
| OutboxProof.ReachableInv | d4_supabase_push.py:271-341 | it holds in every state any run can reach |
| OutboxSafety.CommittedExactlyOnce | d4_supabase_push.py:271-341 | in every reachable state each event and attribution below the checkpoint has taken effect exactly once, as exactly what it contributes to its own batch, margin included, and for each traced one there is a row with its nine columns |
| OutboxSafety.OwnRow | d4_supabase_push.py:221-240 | each traced record below the checkpoint contributes a provenance row to its batch, and some row stands under its columns |
| OutboxSafety.OneOwnRow | d4_supabase_push.py:221-240 | a record contributes one provenance row only |
| OutboxSafety.NothingBeyondTheOutbox | d4_supabase_push.py:271-341 | every effect is exactly what a record before the end of the outbox contributes, and the only effect of its key; every provenance row is the own row of a traced record before that end with these columns |
| OutboxSafety.RefusesExactly | d4_supabase_push.py:278-293 | a rerun refuses if and only if the outbox on disk ends at the checkpoint; then nothing is outstanding |
| OutboxSafety.RefusalWindow | d4_supabase_push.py:331-333 | refusal begins exactly with the checkpoint write and ends exactly with the unlink |
| OutboxSafety.RefusalIsForever | d4_supabase_push.py:283-286 | after a crash in that window no step sends anything, moves the checkpoint or removes the outbox |
| OutboxSafety.OtherwiseResumes | d4_supabase_push.py:278-296 | from every other state a rerun resumes the outbox, or reads on without finding the log shrunk |
| OutboxProgress.WantedHelps | d4_supabase_push.py:318-333 | what a run wants next, its own step or the arrival of its request, is possible and brings it nearer its end, the unlink with the checkpoint at the outbox's end |
| OutboxProgress.OthersPass | d4_supabase_push.py:318-333 | appends and other arrivals leave the run as it is |
| OutboxProgress.FirstAdvance | d4_supabase_push.py:318-333 | within the fairness bound what the run wants happens |
| OutboxProgress.EveryRunEnds | d4_supabase_push.py:318-333 | a run under way whose requests the database does not refuse ends, committed, within the bound times its steps left, in every fair schedule without crash or failure |
| OutboxProgress.BlockedForever | d4_supabase_push.py:318-328 | an outbox on disk with a refused request stays, and the checkpoint never moves, whatever runs follow |
| OutboxProgress.CommitsIffClear | d4_supabase_push.py:318-333 | an outbox on disk can be committed by some continuation if and only if none of its requests is refused |
| OutboxLines.OneLineClear | d4_supabase_push.py:243-253 | no request of a one-record batch is refused |
| OutboxLines.PushLine | d4_supabase_push.py:271-341 | from a fully committed log one more line can be pushed to the end |
| OutboxLines.TwoCopiesBlock | d4_supabase_push.py:249-253 | a traced attribution logged twice blocks the outbox of the run that finds both |
| OutboxProvenance.OnlyRowStands | d4_supabase_push.py:66-77 | a committed row stands when no request up to the end of the outbox leaves another one under its columns |
| OutboxProvenance.OwnRowStandsIff | d4_supabase_push.py:66-77 | between runs a committed row stands whatever arrives late or again if and only if no committed request leaves another row under its columns |
| OutboxProvenance.LeftIffAsked | supabase_migration_attribution_provenance.sql:23 | on a database that refuses repeated rows, what committed requests leave is exactly what committed records ask for |
| OutboxProvenance.OwnRowStandsIffAlone | supabase_migration_attribution_provenance.sql:23 | so a committed record's own row is safe between runs if and only if no other committed record asks for a different row with the same columns |
| OutboxProvenance.RowCanBeLost | d4_supabase_push.py:66-77 | two lines with equal columns and different other fields, pushed by two runs, are both committed and the first one's row is gone |
| OutboxProvenance.SomeRowIsLost | d4_supabase_push.py:66-77 | with an injective hash such a lost row and such a blocked outbox exist |
| OutboxRecords.RecordIff | d4_supabase_push.py:155-173 | a record is exactly a maximal stretch without line breaks that holds a byte that is not white |
| OutboxRecords.ByteIsKept | d4_supabase_push.py:155-173 | every byte that is not white lies in exactly one record, at its own place |
| OutboxRecords.NothingIsDropped | d4_supabase_push.py:271-341 | no byte below the checkpoint is dropped unless it is white: it lies in a record that parsed and whose effect has taken place exactly once |
| OutboxRecords.DecimalReads | d4_supabase_push.py:167 | the offset in the seed reads back as the offset, without leading zeros |
| OutboxRecords.SeedParts | d4_supabase_push.py:164-169 | the seed is path, colon, offset, colon and the record's own bytes |
| OutboxRecords.ReadingIs | d4_supabase_push.py:138-174 | the three outcomes of the reader, with the cut after the last line feed and every record's id |
| OutboxRecords.StartIs | d4_supabase_push.py:295-316 | a run begins work if and only if the reader finds records, and its outbox is made of just these |
| OutboxRecords.EventStandsOnce | d4_supabase_push.py:188-203 | an event below the checkpoint stands in the table exactly once, as it was logged |
| OutboxRecords.AttributionCountsOnce | d4_supabase_push.py:204-220 | an attribution below the checkpoint is counted exactly once, for its target and with the margin of the one event of its batch |
| OutboxMeaning.TheEventIff | d4_supabase_push.py:178-208 | an event is found for a key if and only if it is the only one of the batch that has it |
| OutboxMeaning.RecordIsSentAs | d4_supabase_push.py:188-241 | what each kind of record is sent as, field by field |
| OutboxMeaning.NineColumns | d4_supabase_push.py:69 | rows overwrite each other if and only if all nine columns agree |
| OutboxMeaning.ChunksAre | d4_supabase_push.py:244-253 | all items in order, twenty to a request and the rest in the last |
| OutboxMeaning.RequestsInOrder | d4_supabase_push.py:243-254 | all events, then all increments, then all provenance rows, each in the order of the records |
| OutboxMeaning.EarlierFirst | d4_supabase_push.py:188-241 | an earlier record's items come first |
| OutboxMeaning.ResumesIffSameBytes | d4_supabase_push.py:283-293 | whatever happened to the log, an outbox is resumed if and only if it starts at the checkpoint and the log still holds the bytes it was built from |
| OutboxRefusal.RefusalIsReachable | d4_supabase_push.py:331-333 | for every line that parses to an event, appending it and crashing in the window leads in nine steps to a state that refuses |
| OutboxRefusal.RefusalNeverEnds | d4_supabase_push.py:283-286 | from such a state no sequence of later runs, appends and deliveries sends anything, moves the checkpoint or ends the refusal |
| OutboxRefusal.SomeRunIsStuck | d4_supabase_push.py:278-333 | with an injective hash such a stuck state exists |
| GgufFormat.UnLEOfLE | gguf_load.c:70-73 | reading w little-endian bytes of a number gives it modulo 256^w |
| GgufFormat.AlignUpIsNext | gguf_write.c:200-202 | the result is the next multiple of the alignment, fewer than one alignment away |
| GgufRoundTrip.ScalarBack | gguf_load.c:91-109 | every scalar comes back as its narrowed, sign- or zero-extended value, for all eleven tags |
| GgufRoundTrip.ValueBack | gguf_load.c:144-191 | every value the writer can write comes back, arrays of strings and numbers included, with the cursor after it |
| GgufRoundTrip.KVBack | gguf_load.c:144-191 | a pair comes back when its key holds no NUL |
| GgufRoundTrip.KVsBack | gguf_load.c:143-196 | all pairs come back, in order |
| GgufRoundTrip.ShapeBack | gguf_load.c:204-228 | dimensions, type, byte count and relative offset of a tensor come back |
| GgufRoundTrip.InfosBack | gguf_load.c:198-229 | all tensor descriptions come back, in order |
| GgufRoundTrip.DataLength | gguf_write.c:240-245 | the data section is exactly as long as the offsets say, and offsets are aligned |
| GgufRoundTrip.OffsetsIncrease | gguf_write.c:240-245 | a tensor ends before the next one's offset |
| GgufRoundTrip.DataAt | gguf_write.c:264-277 | every tensor's bytes stand at its offset |
| GgufRoundTrip.TablesBack | gguf_load.c:127-229 | header, pairs and descriptions are read back whatever the alignment; only the placing of the data can differ |
| GgufRoundTrip.RoundTripIff | gguf_write.c:204-277 | the file opens as it was meant if and only if the reader's alignment is non-zero and puts the data section where the writer did |
| GgufRoundTrip.ExtentsHoldTheData | gguf_load.c:236-245 | in that file every extent is inside the file, aligned, holds its own tensor's bytes, and no two overlap |
| GgufRoundTrip.NarrowAgain | gguf_write.c:180-193 | narrowing a value that was read back loses nothing more |
| GgufRoundTrip.CopyIsExact | gguf_write.c:106-121 | writing a value that was read gives the very bytes it was read from |
| GgufSizes.CountWraps | gguf_load.c:219-220 | the element count is the product of the dimensions modulo 2^64 |
| GgufSizes.SizeIsTrueIff | gguf_load.c:214-227 | the reader accepts exactly the shapes of whole blocks, and its byte count is the true one if and only if element and byte count stay below 2^64 |
| GgufSizes.OpenedSizes | gguf_load.c:198-245 | of any bytes that open, every extent lies in the file and has the true size of its dimensions if and only if the counts stay below 2^64 |
| GgufSizes.HugeOpensEmpty | gguf_load.c:219-245 | a file opens whose tensor has 2^64 elements and no bytes |
| GgufTypes.BlockIsItsFields | gguf_load.c:21-38 | each known type's block is exactly the bits of its fields, and no other type is known |
| GgufTypes.BlockIsTheCodecs | gguf_load.c:24-34 | the reader's block of Q4_0, Q5_0, Q4_K and Q6_K is the block the codecs pack |
| GgufTypes.ExtentIsBlocks | gguf_load.c:214-227 | an opened tensor of such a type takes its number of blocks times the codec's block length |
| GgufTypes.ReadTensor | gguf_load.c:214-245 | the decoder reads the opened extent to its last byte, one element for each of the tensor's |
| GgufMeaning.LowestFirst | gguf_load.c:70-73 | byte i of a number has weight 256^i |
| GgufMeaning.WidthsAre | gguf_load.c:50-59 | the widths of the thirteen tags, and which are integers |
| GgufMeaning.SignKept | gguf_load.c:91-109 | a stored number keeps its value in the 64-bit union, with its sign for tags 1, 3 and 5 |
| GgufMeaning.CanonicalIs | gguf_write.c:180-193 | writing at a type's width and reading back reduces modulo its size and then extends |
| GgufMeaning.ValueBegins | gguf_write.c:66-143 | every registration call writes its own tag, arrays with the tag of their elements and their length |
| GgufMeaning.AlignmentByDefault | gguf_load.c:192-195 | without a pair named general.alignment of type 4, 10 or 5 the reader takes 32 |
| GgufMeaning.LastAlignment | gguf_load.c:192-195 | otherwise the last such pair |
| GgufMeaning.CStringIs | gguf_load.c:84-89 | a key ends at its first zero byte |
| GgufMeaning.HeaderIs | gguf_write.c:208-211 | magic, version 3, number of tensors, number of pairs, byte by byte |
| GgufMeaning.OneDescription | gguf_write.c:246-258 | the bytes of one tensor's description |
| GgufMeaning.OneTensorFile | gguf_write.c:204-277 | a file of one float tensor with its four bytes at the next multiple of 32 |
| GgufMeaning.PairIs | gguf_write.c:180-198 | a number pair is the key's length and bytes, the tag and the value's low bytes |
| GgufMeaning.BoolIs | gguf_write.c:180-193 | a boolean is one byte, 1 or 0, by its low word |
| GgufMeaning.VersionTwoOpens | gguf_load.c:127-135 | version 2 opens as well |
| GgufMeaning.OpenedHas | gguf_load.c:111-229 | whatever opens begins with GGUF and version 2 or 3, and has a positive alignment and known types with one to four dimensions |
| GgufWriter.AlignmentMoves | gguf_write.c:62-115 | exactly the calls that move the writer's alignment, which starts at 32 |
| GgufWriter.WriterAlignment | gguf_write.c:62-64 | the writer's alignment is positive after any sequence of calls |
| GgufWriter.SafeCallsAgree | gguf_write.c:73-115 | if every alignment call uses a type the reader honours and a value that survives narrowing, reader and writer agree |
| GgufWriter.SafeCallsRoundTrip | gguf_write.c:66-277 | files made with such calls open as they were meant |
| GgufWriter.IgnoredAlignmentReadsPadding | gguf_write.c:106-115 | an alignment set through a type the reader ignores gives a file that opens and hands out padding as tensor data |
| GgufWriter.Writer.PushKV | gguf_write.c:66-143 | each call appends its pair and moves the alignment as specified |
| GgufWriter.Writer.MaybeUpdateAlignment | gguf_write.c:62-64 | only a positive value under the alignment key changes the alignment |
| GgufWriter.Writer.KvIntRaw | gguf_write.c:106-121 | non-integer tags are FATAL and record nothing |
| GgufWriter.Writer.AddTensor | gguf_write.c:145-160 | appends the tensor and changes nothing else |
| GgufWriter.Writer.EmitValue | gguf_write.c:180-198 | emits the encoding of a value |
| GgufWriter.Writer.EmitKVs | gguf_write.c:212-235 | emits the encodings of all pairs in order |
| GgufWriter.Writer.Offsets | gguf_write.c:240-245 | the running offsets are the specified ones |
| GgufWriter.Writer.EmitData | gguf_write.c:264-277 | emits each tensor and its zero padding in chunks, giving the specified section |
| GgufWriter.Writer.Finish | gguf_write.c:204-277 | emits exactly the specified file |
| GgufReader.Cursor.Num | gguf_load.c:63-75 | reads a number and moves past it, or fails at the end of the file |
| GgufReader.Cursor.Text | gguf_load.c:77-83 | reads a length-prefixed string, wrapped lengths included, or fails |
| GgufReader.Cursor.Array | gguf_load.c:151-185 | reads an array as specified, or fails |
| GgufReader.Cursor.ValueNext | gguf_load.c:91-109 | reads a value as specified, or fails |
| GgufReader.Cursor.Pair | gguf_load.c:144-191 | reads a pair as specified, or fails |
| GgufReader.Cursor.Info | gguf_load.c:199-228 | reads a description as specified, or fails |
| GgufReader.AlignmentOf | gguf_load.c:192-195 | the last honoured alignment pair wins, 32 when there is none |
| GgufReader.PlaceTensors | gguf_load.c:231-245 | places all tensors as specified, or fails on a zero alignment or an extent outside the file |
| GgufReader.OpenFile | gguf_load.c:111-248 | the loops accept and return exactly what the specification says, for any bytes |
| ErrorFeedback.MaxAbsAttained | gguf_transcode.c:126-131 | the maximum is the magnitude of one of the inputs |
| ErrorFeedback.ScalesAreTight | gguf_transcode.c:126-133 | above its floor each scale is the smallest that reaches every input with qmax steps, and at the floor it is 1 |
| ErrorFeedback.QmaxIs | gguf_transcode.c:128 | the largest codes at two to eight bits |
| ErrorFeedback.RintIs | gguf_transcode.c:138 | rounding is to nearest, and to even from the middle |
| ErrorFeedback.ClampIsNearest | gguf_transcode.c:139-140 | clamping gives the nearest code |
| ErrorFeedback.CodeIsNearest | gguf_transcode.c:137-141 | of all codes the one chosen decodes nearest to the running value |
| ErrorFeedback.ScalesCover | gguf_transcode.c:126-133 | both encoders' scales times qmax reach the largest magnitude, the floor case included |
| ErrorFeedback.StepBound | gguf_transcode.c:137-140 | within half a step of the codes, rounding and clamping leave at most half a step, and clamping acts only on the tie above qmax |
| ErrorFeedback.ErrBoundStep | gguf_transcode.c:136-142 | one step keeps the carried error within half a scale and its quotient within half a step of the codes |
| ErrorFeedback.ErrBound | gguf_transcode.c:135-142 | the carried error never exceeds half a scale |
| ErrorFeedback.ErrIsDifference | gguf_transcode.c:137-142 | the carried error is the sum of inputs minus the sum of decoded values |
| ErrorFeedback.PrefixSumBound | gguf_transcode.c:126-143 | for every group, every n and every prefix, inputs and decoded values differ in sum by at most half the scale, for both encoders |
| ErrorFeedback.ClampOnlyAtTheTie | gguf_transcode.c:139-140 | the upper clamp changes a code only at the tie qmax + 1/2 and the lower clamp never acts |
| ErrorFeedback.ScalesAgreeIff | qng64_dense.c:48 | the two encoders choose the same scale if and only if their floor tests agree |
| ErrorFeedback.FloorsCanDisagree | qng64_dense.c:48 | a group of 64 with one 2e-12 and 63 zeros makes the floors disagree: the two encoders choose different scales and codes |
| BitPlanes.WithBitSetsOne | gguf_transcode.c:149 | ORing a bit in sets that bit and no other |
| BitPlanes.FromBitsOf | mlx_moe.cpp:300-304 | gathering the low n bits of a number gives it modulo 2^n |
| BitPlanes.PlanesGiveCodes | qng64_dense.c:19-27 | planes that hold codes below 2^n decode to them at every position |
| BitPlanes.CodesDeterminePlanes | gguf_transcode.c:143-151 | the codes determine every byte of the planes |
| BitPlanes.StreamGivesCodes | mlx_moe.cpp:297-312 | the bits [p n, (p+1) n) of the stream spell the code the planes hold at p |
| Qng64.ScaleOfIsTight | qng64_dense.c:43-48 | the scale of a group is the smallest that reaches every input when some input is beyond the floor, for either encoder, and 1 otherwise |
| Qng64.DecodeReturnsTheCode | qng64_dense.c:19-27 | decoding returns the code the quantizer chose, at every index and width |
| Qng64.EncodersAgree | qng64_dense.c:29-68 | where the floor tests agree the two encoders write the same scale and the same bytes |
| Qng64.SpreadCode | gguf_transcode.c:144-151 | spreads one biased code over the planes and leaves every other position and every byte outside alone |
| Qng64.NextCode | gguf_transcode.c:137-142 | the reciprocal form chooses the code and leaves the error of exact division |
| Qng64.EncodeGroup | gguf_transcode.c:125-152 | one group's slot ends up holding exactly its codes, and nothing outside changes |
| Qng64.EncodeMatrix | gguf_transcode.c:108-154 | every group of every row has its own scale and codes in its own slot, for both encoders' loops |
| Qng64.QuantizeDense | qng64_dense.c:29-68 | refuses exactly the shapes and widths the source refuses, changing nothing; otherwise every group is encoded |
| Qng64.DecodeCode | qng64_dense.c:19-27 | the decoded code, or 0 for exactly the arguments the source refuses |
| Qng64Layouts.RepackedCode | mlx_moe.cpp:295-313 | after the repack the stream of a group's slot spells the codes of its planes |
| Qng64Layouts.EncodeGroupQ4 | gguf_transcode.c:31-66 | the q4g64 loop stores the codes of the general quantizer at n = 4 under the same scale, in nibbles |
| Qng64Layouts.FourPlanesAreNibbles | gguf_transcode.c:38-64 | at n = 4 planes and nibbles hold the same code at every position |
| Qng64Layouts.CopyBit | mlx_moe.cpp:305-310 | copying one bit puts it at its place in the stream and disturbs none before it |
| Qng64Layouts.RepackCode | mlx_moe.cpp:298-312 | one code is gathered from the planes and appended to the stream |
| Qng64Layouts.RepackGroup | mlx_moe.cpp:295-313 | a group's stream holds every code of its planes |
| Qng64Layouts.RepackAll | mlx_moe.cpp:286-315 | every group of every row of every expert is repacked into its own slot |
| Qng64Layouts.BitBack | mlx_moe.cpp:300-306 | a code has exactly the bits it was gathered from |
| CodeLayouts.PlaneBitIs | qng64_dense.c:19-27 | bit j of the code at p is bit p % 8 of byte 8 j + p / 8 |
| CodeLayouts.StreamBitIs | mlx_moe.cpp:305-310 | bit x of the stream is bit x % 8 of byte x / 8 |
| CodeLayouts.EncodedBit | gguf_transcode.c:108-154 | where every bit of every code of a matrix stands, and its scale |
| CodeLayouts.NibbleCode | gguf_transcode.c:58-64 | low half for even positions, high half for odd ones |
| CodeLayouts.GatheredBit | qng64_dense.c:19-27 | a gathered code has exactly the bits it was gathered from |
| CodeLayouts.Q40Is | gguf_quants.c:123-128 | Q4_0 bytes in masks and shifts |
| CodeLayouts.Q50Is | gguf_quants.c:152-161 | Q5_0 low bits and fifth bits in masks and shifts |
| CodeLayouts.ScaleBitsAre | gguf_quants.c:108-115 | the bits of the eight scale and minimum pairs |
| CodeLayouts.Q4KIs | gguf_quants.c:246-254 | where the codes, scales and minima of Q4_K stand |
| CodeLayouts.Q6KIs | gguf_quants.c:267-278 | where the low and high bits and the scales of Q6_K stand |
| RaggedCache.RowAbove | mlx_moe.cpp:2497-2515 | a row above a layer is the layer's block on the row below, with the entries of all positions up to it |
| RaggedCache.SumsOfPrefixes | mlx_moe.cpp:2497-2512 | for a layer that sums the entries it may see, every position gets the sum of the inputs up to its own |
| RaggedCache.OutputIs | mlx_moe.cpp:2400-2631 | what Serve promises of each row |
| RaggedCache.StepCarries | qwen_infer.c:12933-12945 | what the calling discipline says of each column and of each position without one |
| RaggedCache.HiddenOfPrefix | mlx_moe.cpp:2497-2512 | what a request computes at a position depends only on its inputs up to it |
| RaggedCache.ScatterWrites | mlx_moe.cpp:2494-2495 | with distinct (slot, pos) cells every column's entry is at its own cell |
| RaggedCache.ScatterKeeps | mlx_moe.cpp:2494-2495 | a cell no column names keeps its entry |
| RaggedCache.UnmaskedIsPrefix | mlx_moe.cpp:2504-2508 | the mask j <= pos leaves exactly the first pos + 1 entries of the window |
| RaggedCache.DecodeStepOk | qwen_infer.c:12933-12945 | a decode step with distinct slots, each request starting at 0 and advancing by one, meets the discipline |
| RaggedCache.ScatterHolds | mlx_moe.cpp:2488-2495 | after the scatter the layer holds each slot's own request: old entries stay, new ones are right |
| RaggedCache.WindowIsOwnHistory | mlx_moe.cpp:2497-2512 | the unmasked window a column reads is exactly what its own request wrote at 0..pos, nothing of an earlier occupant or another slot |
| RaggedCache.LayerAdvances | mlx_moe.cpp:2510-2515 | a layer turns rows that are right below it into rows that are right above it |
| RaggedCache.Engine.LayerStep | mlx_moe.cpp:2404-2432 | accepts a layer exactly when it is in order, within bounds and for the same columns; otherwise changes nothing |
| RaggedCache.Engine.Forward | qwen_infer.c:12933-12945 | all layers of a step, in order, keep the cache right and give the requests' own rows |
| RaggedCache.Serve | mlx_moe.cpp:2400-2631 | over any run that keeps the discipline, prefill steps included, every row of every step is what its request computes alone; the GQA sibling (2939-3043) has the same protocol |
| SortedGather.ResultIs | mlx_moe.cpp:2581-2608 | whatever path runs, a row and choice get the chosen expert's down projection of the gated product of its gate and up projections |
| SortedGather.ArgsortOfArgsortIsInverse | mlx_moe.cpp:2586-2587 | sorting the indices of a permutation gives its inverse |
| SortedGather.CellIndex | mlx_moe.cpp:2588-2589 | floor division by top_k recovers the row and the remainder the choice |
| SortedGather.DirectAt | mlx_moe.cpp:2601-2607 | the direct path gives (row, choice) its own expert's result on its own row |
| SortedGather.SortedDownAt | mlx_moe.cpp:2590-2597 | position i of the sorted run is the result for the flat cell order[i] |
| SortedGather.SortedAt | mlx_moe.cpp:2598-2599 | after unsorting, (row, choice) has its own expert's result |
| SortedGather.SortedIsDirect | mlx_moe.cpp:2581-2608 | the two paths agree, for any expert functions and whatever argsort does with ties |
| SortedGather.ThresholdDoesNotMatter | mlx_moe.cpp:2581 | the result at every (row, choice) does not depend on the threshold that picks the path |
| SortedGather.TopChoices | mlx_moe.cpp:2566-2568 | no expert outside the last top_k of the argsort scores higher than one inside |
| SortedGather.Onto | mlx_moe.cpp:2586 | a permutation reaches every index |
| SdotDot.GroupLanesFit | q4gemv.h:233-241 | every lane of a group and their sum fit an int32 |
| SdotDot.FoldedLanesFit | q4gemv_g256.h:186-195 | so do the combined lanes and the scalar, with any byte as sub-code |
| SdotDot.VDotAcross | q4gemv.h:238-239 | the horizontal sum of a vector dot is the sum of the sixteen products |
| SdotDot.SplitActivation | q4gemv.h:306-312 | every chunk of 32 has its even elements first and its odd ones after |
| SdotDot.ChunkIsNatural | q4gemv.h:233-240 | a chunk on split activations adds exactly its natural-order products |
| SdotDot.GroupIsNatural | q4gemv.h:230-241 | a group's integer sum on split activations is the natural-order sum of (nibble - 8) * activation |
| SdotDot.GroupBound | q4gemv_g256.h:186-189 | after each vector dot of a group of 64 every lane stays within 16 * 8 * 128 |
| SdotDot.FoldsAgree | q4gemv_g256.h:134-184 | the vector and the scalar form of the subfold compute the same integer for every input |
| SdotDot.FoldedLanesBound | q4gemv_g256.h:189-191 | a combined lane stays within its share of the bound after every subgroup |
| SdotDot.NothingOverflows | q4gemv_g256.h:186-195 | no combined lane, multiply-add product, partial horizontal sum, scaled group or accumulator of either form leaves int32, with the bound 16 * 8 * 128 * 63 * 4 * 4 |
| SdotTiler.GroupSum64 | q4gemv.h:231-240 | the chunk loop of a group gives the specified lanes |
| SdotTiler.GroupSum | q4gemv_g256.h:140-153 | the subgroup loop gives the specified integer for either format |
| SdotTiler.DotRow | q4gemv.h:226-244 | the single-column kernel is the chain of terms in group order |
| SdotTiler.ColumnChunk | q4gemv.h:329-334 | one column's accumulator takes in one chunk of already split weights |
| SdotTiler.TileLanes | q4gemv.h:321-335 | chunk by chunk, every column's lanes become the group's vector sum of that column |
| SdotTiler.TileFolds | q4gemv_g256.h:238-257 | subgroup by subgroup, every column's combined lanes become the folded lanes of that column |
| SdotTiler.TileInts | q4gemv.h:321-336 | each column's horizontal sum is the integer the single-column kernel computes, for either format |
| SdotTiler.TileGroup | q4gemv.h:321-337 | one group advances every column's accumulator by its own term |
| SdotTiler.NextInChain | q4gemv.h:336 | adding a column's term extends that column's chain by one group |
| SdotTiler.StoreColumn | q4gemv.h:338 | a store puts one column's result in place, leaves the earlier ones, and is logged at that column's cell |
| SdotTiler.Tile | q4gemv.h:313-339 | every column of a tile gets the single-column result plus bias, stored once at its own cell in order, and no other cell changes |
| SdotTiler.RowBatch | q4gemv.h:378-386 | for every M the 8/4/2/1 tiling gives each column the single-column result; the log of stores is the columns' cells in order, all different; with group-256 rows this is q4gemv_g256.h:327-335 |
| SdotMeaning.StretchSum | q4gemv.h:241 | a stretch under one factor sums to its integer sum times the factor |
| SdotMeaning.TermIsShare | q4gemv.h:241 | one term of a kernel is its group's share of the dot product, in either format |
| SdotMeaning.RowIsDot | q4gemv.h:226-244 | with exact floats the chain of terms is the sum of (nibble - 8) * activation * scales over all elements |
| SdotMeaning.DotExact | q4gemv.h:226-244 | split and single-column kernel together compute that dot product |
| SdotMeaning.BatchExact | q4gemv.h:378-386 | the tiled kernel puts bias plus the dot product of column c at its cell, and touches no other |
| BlockCodecs.ScaleGroupsAreContiguous | gguf_quants.c:267-280 | Q6_K's interleaved decoder applies scale g to exactly the elements 16 g to 16 g + 15 |
| BlockCodecs.PackSplit | gguf_write_quants.c:56-60 | byte j holds elements j and j + 16 |
| BlockCodecs.Reads40 | gguf_quants.c:123-128 | Q4_0's decoder reads back every packed code |
| BlockCodecs.Pack40 | gguf_write_quants.c:56-60 | the packed block decodes to its codes and bytes outside are untouched |
| BlockCodecs.FifthBits | gguf_write_quants.c:250-258 | bit i of the 32-bit mask is the fifth bit of element i |
| BlockCodecs.LowFifthIs | gguf_quants.c:152-158 | shifting the 32-bit mask as the decoder does gives the fifth bit of element j |
| BlockCodecs.HighFifthIs | gguf_quants.c:152-158 | shifting it by j + 12 gives the fifth bit of element j + 16 |
| BlockCodecs.Reads50 | gguf_quants.c:152-161 | Q5_0's decoder joins nibble and mask bit to the packed code |
| BlockCodecs.Pack50 | gguf_write_quants.c:250-258 | the packed block decodes to its five-bit codes |
| BlockCodecs.ScaleMinBack | gguf_quants.c:108-115 | all eight six-bit scale and minimum pairs survive the twelve bytes |
| BlockCodecs.PackScales | gguf_write_quants.c:164-174 | the two passes of the loop give the packed layout |
| BlockCodecs.PackNibbles4K | gguf_write_quants.c:199-205 | 64 codes per 32 bytes, low halves first |
| BlockCodecs.Reads4K | gguf_quants.c:246-254 | Q4_K's decoder gives each element its own scale, minimum and code |
| BlockCodecs.Pack4K | gguf_write_quants.c:164-205 | the packed block holds its scales, minima and codes |
| BlockCodecs.Reads6K | gguf_quants.c:268-278 | Q6_K's ql and qh return every six-bit code |
| BlockCodecs.Pack6K | gguf_write_quants.c:338-351 | the packed block holds its scales and codes |
| BlockCodecs.PackHalf | gguf_write_quants.c:338-350 | one half of the loop packs its 128 codes and leaves the other half |
| BlockRows.RowReadIs | gguf_quants.c:118-282 | element by element, what a decoded row holds |
| BlockRows.PackBlock | gguf_write_quants.c:56-60 | each format's packer leaves a block its reader reads back |
| BlockRows.PackRow | gguf_write_quants.c:338-352 | any number of blocks, each in its own slot |
| BlockRows.Unpack40 | gguf_quants.c:118-130 | the Q4_0 loop's nibble expressions give the specified codes, low halves first |
| BlockRows.Unpack50 | gguf_quants.c:147-163 | the Q5_0 loop, from the assembled 32-bit mask, gives the specified codes |
| BlockRows.SplitFive | gguf_quants.c:157-161 | one step's two shift-and-mask expressions give elements j and j + 16 |
| BlockRows.Unpack4K | gguf_quants.c:237-256 | the decode loop writes the elements in order |
| BlockRows.Unpack6K | gguf_quants.c:259-282 | the four strided stores per step fill the 256 elements in order |
| BlockRows.Step6K | gguf_quants.c:268-278 | one step of the cursors yields the four elements 32 apart |
| BlockRows.UnpackBlock | gguf_quants.c:118-282 | each decode loop equals its format's reading |
| BlockRows.UnpackRow | gguf_quants.c:118-282 | decoding a row of encoded blocks gives every element its own code, scale and minimum |
| KleidiPack.ConvertScalar | kleidiai/kai_rhs_pack_nxk_qsi4c32ps1s0scalef16_qsu4c32s16s0_neon.c:67-96 | the scalar conversion gives codes in sequential order |
| KleidiPack.ConvertChunk | kleidiai/kai_rhs_pack_nxk_qsi4c32ps1s0scalef16_qsu4c32s16s0_neon.c:34-47 | unzip and shift-insert convert 32 source bytes into 16 of each half |
| KleidiPack.ConvertTail | kleidiai/kai_rhs_pack_nxk_qsi4c32ps1s0scalef16_qsu4c32s16s0_neon.c:49-65 | the last sixteen source bytes complete the block |
| KleidiPack.ConvertVector | kleidiai/kai_rhs_pack_nxk_qsi4c32ps1s0scalef16_qsu4c32s16s0_neon.c:98-152 | the vector conversion gives the same bytes as the scalar one for every block length that is a multiple of 32 |
| KleidiPack.SplitGroup | sme2_kai.c:289-295 | the engine's permutation pairs codes idx and idx + 32 |
| KleidiPack.ConversionUndoesSplit | sme2_kai.c:289-295 | for groups of 64 codes the conversion undoes the permutation exactly |
| KleidiBuffer.AddressInjective | kleidiai/kai_rhs_pack_nxk_qsi4c32ps1s0scalef16_qsu4c32s16s0_neon.c:447-459 | group, line and column determine a flat offset, and different ones different offsets |
| KleidiBuffer.StoreIndexed | kleidiai/kai_rhs_pack_nxk_qsi4c32ps1s0scalef16_qsu4c32s16s0_neon.c:519-522 | the scalar path's index expression stores the words of one row and block in that row's column |
| KleidiBuffer.StoreStrided | kleidiai/kai_rhs_pack_nxk_qsi4c32ps1s0scalef16_qsu4c32s16s0_neon.c:313-333 | four lines per turn through the three strides and then line by line: the same cells get the same words, for every block length |
| KleidiBuffer.PackRowScalar | kleidiai/kai_rhs_pack_nxk_qsi4c32ps1s0scalef16_qsu4c32s16s0_neon.c:510-526 | one row and block: every line of that block in that column, nothing else |
| KleidiBuffer.PackRowVector | kleidiai/kai_rhs_pack_nxk_qsi4c32ps1s0scalef16_qsu4c32s16s0_neon.c:488-496 | the left-over row of the vector path, through the strided store, writes the same cells |
| KleidiBuffer.InterleaveRows | kleidiai/kai_rhs_pack_nxk_qsi4c32ps1s0scalef16_qsu4c32s16s0_neon.c:276-311 | two lines of four words per turn and a single last line put each row's words in its own column |
| KleidiBuffer.PackTile | kleidiai/kai_rhs_pack_nxk_qsi4c32ps1s0scalef16_qsu4c32s16s0_neon.c:462-486 | four rows at once: each in its own column |
| KleidiBuffer.PackBlock | kleidiai/kai_rhs_pack_nxk_qsi4c32ps1s0scalef16_qsu4c32s16s0_neon.c:458-501 | tiles of four and then left-over rows fill one block of a group |
| KleidiBuffer.PackGroup | kleidiai/kai_rhs_pack_nxk_qsi4c32ps1s0scalef16_qsu4c32s16s0_neon.c:447-502 | a group of nr rows, the short last group included, with the two pointers advanced block by block |
| KleidiBuffer.PackVector | kleidiai/kai_rhs_pack_nxk_qsi4c32ps1s0scalef16_qsu4c32s16s0_neon.c:433-504 | the fast path leaves every word as specified, words past the last row untouched |
| KleidiBuffer.PackScalar | kleidiai/kai_rhs_pack_nxk_qsi4c32ps1s0scalef16_qsu4c32s16s0_neon.c:506-531 | the scalar path leaves every word as specified, words past the last row untouched |
| KleidiBuffer.PackOneRow | kleidiai/kai_rhs_pack_nxk_qsi4c32ps1s0scalef16_qsu4c32s16s0_neon.c:506-530 | one row fills exactly its own column of its own group |
| KleidiBuffer.PathsAgree | kleidiai/kai_rhs_pack_nxk_qsi4c32ps1s0scalef16_qsu4c32s16s0_neon.c:433-531 | the contract both paths meet leaves no choice for any word of the buffer |
| KleidiBuffer.PackBoth | kleidiai/kai_rhs_pack_nxk_qsi4c32ps1s0scalef16_qsu4c32s16s0_neon.c:433-531 | from equal buffers both paths make equal buffers, for all n, k, nr a multiple of 4 and block lengths a multiple of 32 |
| KleidiLayout.SequentialIs | kleidiai/kai_rhs_pack_nxk_qsi4c32ps1s0scalef16_qsu4c32s16s0_neon.c:67-96 | the sequential order has the low halves of all bytes first, then the high halves |
| KleidiLayout.PackedAt | kleidiai/kai_rhs_pack_nxk_qsi4c32ps1s0scalef16_qsu4c32s16s0_neon.c:506-531 | after either path each word and each scale of each row stands at its place, in plain arithmetic |
| KleidiLayout.BeyondTheRows | kleidiai/kai_rhs_pack_nxk_qsi4c32ps1s0scalef16_qsu4c32s16s0_neon.c:506-531 | words beyond the last row are as they were |

## Left out

- StrIntMaps.StrIntMap.constructor: the class computes `expected_n * 2 + 1` without 32-bit wrap-around, so it stands for the C table below 2^30 entries; SizingSufficesIff shows that this is exactly where the C loop gives a large enough table. Put and get share one probe method.
- MergeLoop.EmitIds: token ids and ranks are unbounded; the casts to int32 for 2^31 entries and more are not modelled.
- PreTokenizer.SplitSpan: the Unicode table is a class function with letters, numbers and white space disjoint and every code point having some flag; the code points fit in 21 bits, so the out-of-range sentinel never collides. The qwen2 and llama3 loops, alike but for the number alternative, share one method.
- Tokenizer.BpeVocab.Decode: the output length is unbounded, so an output of 2^31 bytes or more does not wrap. BOS and EOS ids are not modelled.
- PoolProof.ReachableInv: sequential consistency; memory orders weaker than that, QoS hints, `sched_yield` and wrap-around of the generation counter are not modelled. Threads are a transition system, not a class.
- PoolFairness.EveryCallEnds: fairness is bounded (an enabled thread moves within a given number of steps), which is stronger than eventual fairness; the number of spurious wake-ups enters the bound.
- PoolDispatch.PerformAll: the direct kernels of a one-thread pool are the same work as the pooled ones; the quantization of activations before a call is not modelled here.
- The numeric kernels of `q4_run_range` other than SDOT, and the 8-bit SDOT tiler, which has the shape of the 4-bit one without the split.
- SdotTiler.RowBatch: float operations are opaque; the tile's sum starts from 0.0 and the bias is added last, as in the source.
- OutboxProgress.EveryRunEnds: fairness is bounded (what a run wants happens within a given number of steps), which is stronger than eventual fairness.
- OutboxSafety.CommittedExactlyOnce: SHA-256 is an injective function, JSON parsing (missing fields included) is a function, one pusher runs at a time, and the log is only appended to. A run is a state machine over steps, not a method. A request is applied in one step. Whether the database refuses an upsert that names one row twice, as PostgreSQL does, is a parameter. `first_seen_at` and `last_seen_at` are not modelled.
- A malformed complete line stops every later run at that line; the model has this as `BadRecord`.
- GgufRoundTrip.RoundTripIff: names hold no NUL, byte counts fit the types, 1 to 4 dimensions, the file is shorter than 2^63 bytes; write errors, failed allocations and mmap are not modelled. Floats are bit patterns.
- ErrorFeedback.PrefixSumBound: exact arithmetic; float rounding of the scale, the reciprocal and the products is not modelled.
- Qng64.EncodeMatrix: the saturation counter and its message. The row loop of q4g64 is modelled one group at a time.
- BlockCodecs.Pack4K: codes, scales and minima are given; how the passes choose them, and fp16 conversion, are not modelled. The same holds for the other formats. Q8_0, Q3_K, Q5_K and MXFP4 would add the same kind of member.
- RaggedCache.Serve: slots are in range and the slot and position arrays are the same for all layers of a step, as `qwen_infer.c` calls it; keys and values are one entry; RoPE, softmax, risk telemetry and exceptions inside a layer are not modelled. Two columns naming one cell are excluded.
- SortedGather.SortedIsDirect: expert functions are uninterpreted and indices are in range; renormalised weights and the weighted sum are the same on both paths and are not modelled.
- KleidiBuffer.PackBoth: the packed buffer is a flat array of 16-bit words with the source's offsets, strides and pointers; source rows are lists of blocks, so their byte offsets are not modelled. 64-bit stores are four words; the four-row converter is four calls of the one-row converter; bias and extra bytes are unused.
- NEON, SME and Metal instructions beyond their lane-wise integer meaning, the assembly kernels and hardware detection.
- `attn_neon.h`, `hf_config.c`, the safetensors files, `gguf_cache.c`, `rope_llama3_scale.h`, and the scheduler and forward pass of `qwen_infer.c`: easier than, or covered by, what is here.
