# A verified model of the DS3 inference engine, its prefix cache, tokenizer and daemon

The repository runs a 30B mixture-of-experts transformer on one machine: an engine schedules
Metal kernels over a KV cache, a provider keeps KV rows of earlier turns, a tokenizer turns
text into token ids, and a daemon serves sessions to several clients. This project models
five parts of it in Dafny. In each part an optimised or stateful form has to agree with a
simple form, and that agreement is what is proved.

* **Engine** (`Kernels`, `Schedule`, `Moe`, `HostLayout`, `Engine`, `Generate`). The engine is
  a class whose buffers and KV arrays are updated in place, with the loops of the C code.
  Kernels are uninterpreted functions over real vectors: a row-wise kernel sees one row,
  attention at position p sees cache rows 0..p. The reference is `Schedule`: run all layers
  for one token, then the next token (`Tokens`, and `Cold` from an empty cache). Layer-major
  chunks, token passes on each of the three schedules, gathered experts and prefix-cache hits are
  all shown to end where that reference ends.
* **KV cache** (`KvLayout`, `KvService`, `KvLocal`, `Turns`). The service provider transposes
  between a layer-major host buffer and token-major blocks in an arena. The remote service is
  an environment with a contract (`Truthful`, `HashTells`, `FreshSlots`): slots are disjoint and
  free, a lookup names the session's first blocks in order with true headers, and a hash
  matches only a shared prefix. A session refines an abstract record (`Record`, `Stored`,
  `After`): lookups, writes and refusals in any order take it through the record's states.
  `Turns` joins the two halves: `ServedCall` is lookup, read, generation and write of one call on
  one engine and one service session, and `Conversation` any number of them.
* **Tokenizer** (`Utf8`, `Tables`, `Bpe`, `Vocabulary`, `Scanner`, `Regex`, `Tokenizer`,
  `Chat`). Byte symbols, hash table, merge loop, scanner and added-token splitting, each as the
  C loop proved against a function, and then the laws about those functions: decoding undoes
  encoding, and encoding distributes over added tokens.
* **Daemon** (`Sessions`, `Json`, `JsonSkip`). The threads are a transition system over all
  interleavings, one step per lock operation or table access; the JSON printer and parser are
  functions with the C loops proved against them.
* **Message codec** (`Varints`, `Varints32`, `FieldIter`, `Messages`, `MessageWriter`,
  `MessageReader`, `MessageRoundTrip`). The nanopb encoder with its sizing pass and the decoder,
  for field lists of any length and depth over the kinds the cache RPC uses. The formats are
  those of the Protocol Buffers Encoding guide, sections "Base 128 Varints" and "Signed
  Integers".

`TopK` models the reference top-k selection. `Bytes`, `Ints`, `Seqs` and `Wrappers` hold shared
types, constants and sequence facts. `dafny verify dfyconfig.toml` checks everything.

## What came out differently from what the repository says

* The comments on the byte table speak of 94 moved bytes (src/ds3_tokenizer.c:129-137). The
  code moves 68: `Utf8.NextCp`, `Utf8.MovedIs`.
* The scanner stands in for a seven-alternative regex. It agrees with it on all ASCII text
  without vertical tab and form feed, which the regex counts as white space and the scanner
  as symbols (`Regex.ScannerRefinesRegex`). Before an exclamation mark they part ways
  (`Regex.PartOnVerticalTab`), so over an ASCII alphabet with that mark they agree on all texts
  if and only if neither of the two is in the alphabet (`Regex.AgreeWithoutTabs`).
* The prefix hash of a lookup vouches for `cached_prefix_len` tokens, but the loop that settles
  the length measures whole blocks against the prompt and never against that number
  (src/ds3_kv_cache.c:1396-1409). A reply within the contract can therefore make the client keep
  tokens that differ: one block of 16, a shared prefix of 10 and a prompt of 20
  (`KvService.KeepsTooMuch`). The length kept is shared by every record consistent with the
  reply if and only if it is at most the named prefix length (`KvService.KeptIsShared`): that is
  the missing guard.
* `next_pow2` does not end for an argument above 2^31 (`Tables.NeverReached`), and the selection
  loop of the reference top-k has nothing to pick, and marks place -1, once all scores above
  its sentinel are taken (`TopK.NothingLeft`).
* The cached length a call reports stays the looked-up one when the read or the upload then
  fails and nothing is reused (`Generate.TryCache`).
* Encoding and decoding return every text but the empty one: decoding no tokens is an error
  (src/ds3_tokenizer.c:934-969), so `Tokenizer.EncodeThenDecode` fails exactly on the empty
  text.
* The 32-bit varint decoder accepts numbers that are neither 32-bit values nor sign-extended
  negative ones: 2^35 - 2^31 is read as 2^31 (`Varints32.AcceptsMore`). `Varints32.ReadsEncoding`
  states exactly which 64-bit numbers it accepts.
* After a forward pass fails during decoding, the emitted tokens are one ahead of the cache, and
  the reported length and the write-back count that token's row although it was not computed
  (src/ds3_engine.c:3255-3288). `Generate.GenerateEx` states what holds with and without a
  failure. Every cache written back so serves a shared prefix of a later prompt rightly if and
  only if the prefix leaves the last token out (`Generate.TaintedServes`); `Generate.WrongRow` is
  one that is wrong.
* The local provider hands out a prefix as a slice of raw bytes (src/ds3_kv_cache.c:363-364) of
  a layer-major image. `KvLocal.SliceServesPrefix`: the slice is the prefix's image, for every
  stored cache, if and only if nothing or everything is read.
* A field search succeeds at once if the iterator already stands on the tag, even on an
  extension range, which any other search for it would pass over. A search succeeds exactly if
  there is a field with the tag unless it starts on such a range (`FieldIter.Iter.Find`);
  `FieldIter.FindsRange` finds a tag no field has.
* A message round trip is the identity exactly if no absent optional field holds a value
  (`MessageRoundTrip.RoundTripIsIdentity`); what such a field held is dropped, as in
  `MessageRoundTrip.DropsAbsent`.

## Model

| member | source | states |
|---|---|---|
| Schedule.ChunkIsTokens | src/ds3_engine.c:1168-1302 | Running a chunk layer by layer leaves the same cache in every layer and the same last hidden vector as running its tokens one after another, for any layer count, starting cache, position and chunk |
| Schedule.ChunkSnoc | src/ds3_engine.c:1211-1278 | The loop interchange: one more token at the end of a layer-major chunk is that token run alone through all layers after the chunk |
| Schedule.TokensSplit | src/ds3_engine.c:3217-3242 | A prompt may be cut into chunks anywhere: the parts in turn leave what the whole leaves |
| Schedule.TokensShape | src/ds3_engine.c:1354-1523 | A run appends one row per token to every layer and changes no row that was there |
| Schedule.RowsOfPrefix | src/ds3_engine.c:3143-3181 | Causality: the cold cache of a prefix is the first rows of the cold cache of the whole prompt |
| Schedule.ColdSplit | src/ds3_engine.c:3143-3242 | Going on from a prefix's cache gives the cache and hidden vector of a cold run over the whole |
| Moe.BucketHolds | src/ds3_engine.c:944-955 | Bucket ex holds a token with a weight if and only if the token chose ex with that weight |
| Moe.BucketOrdered | src/ds3_engine.c:944-955 | A bucket's tokens strictly increase, so it has at most one slot per token of the chunk |
| Moe.SlotsApart | src/ds3_engine.c:950-952 | Slots ex*M+i of different experts never coincide and lie inside the allocation |
| Moe.PartialFits | src/ds3_engine.c:944-955 | At every step of the counting pass the next write stays inside its own expert's region |
| Moe.BuildBuckets | src/ds3_engine.c:932-955 | The counting pass leaves every expert's bucket, in order, in that expert's region |
| Moe.GatherRows | src/ds3_engine.c:975-977 | Row i of the gathered buffer is the row of the bucket's i-th token |
| Moe.ScatterAdd | src/ds3_engine.c:1010-1013 | Each token of the bucket gets its weighted row added once; no other row changes |
| Moe.RunBucket | src/ds3_engine.c:969-1014 | One expert round adds weight times expert output to exactly the rows that chose the expert |
| Moe.SumBelowStep | src/ds3_engine.c:969-1014 | Summing in expert order adds each expert's one term, wherever it stands in the token's own list |
| Moe.ExpertRound | src/ds3_engine.c:969-1014 | A round takes every row from the sum over experts below ex to the sum over experts below ex+1 |
| Moe.GatheredExperts | src/ds3_engine.c:932-1016 | The bucketed pass gives every token the weighted sum over its own expert list, the same function the per-token pass computes |
| Moe.TokenExperts | src/ds3_reference.c:654-679 | The plain accumulation loop computes the weighted sum over the token's expert list |
| HostLayout.LayerMajorCell | src/ds3_engine.c:3063-3091 | Where row t of half K or V of layer l lies in the host image, and that the image holds it there |
| HostLayout.LayerMajorSlices | src/ds3_engine.c:3063-3091 | The slices an upload writes for layer l are that layer's K rows and V rows |
| Engine.SampleToken | src/ds3_engine.c:313-341 | At temperature 0 the sampled token is the lowest index of a largest logit |
| Engine.Engine.constructor | src/ds3_engine.c:1775-1832 | A fresh engine has its buffers laid out, apart from one another, and an empty cache |
| Engine.Engine.AttendRow | src/ds3_engine.c:433-543 | One row is stored at pos and attention reads rows 0..pos only, all written; no other row of any layer changes |
| Engine.Engine.AttendRows | src/ds3_engine.c:729-893 | The in-order token loop gives each row of a chunk attention over the cache grown by the rows up to it, no further |
| Engine.Engine.ForwardChunkPre | src/ds3_engine.c:729-893 | The attention half of a layer over a chunk equals the row-by-row reference and writes rows pos..pos+m of that layer only |
| Engine.Engine.RouterTopK | src/ds3_engine.c:1111-1155 | The choices read back are those of the rows' own router logits |
| Engine.Engine.ForwardChunkPost | src/ds3_engine.c:895-1109 | Gathered or row by row, the expert half finishes every row as the reference does |
| Engine.Engine.UploadEmbeddings | src/ds3_engine.c:1168-1181 | Fails exactly if some token is outside the vocabulary; else row t is the embedding of token t |
| Engine.Engine.ChunkAllLayers | src/ds3_engine.c:1211-1278 | The pipelined layer loop leaves the cache and hidden rows of the layer-major reference |
| Engine.Engine.ChunkHidden | src/ds3_engine.c:1168-1278 | A chunk leaves the cache and last hidden row of its tokens run one by one |
| Engine.Engine.ForwardChunk | src/ds3_engine.c:1168-1302 | Succeeds exactly if the chunk is non-empty, fits the context and is in the vocabulary; then cache, logits and sampled token are those of the tokens run one by one |
| Engine.Engine.ForwardLayerPre | src/ds3_engine.c:433-543 | One row's attention half: the row appended to layer l, and the attended row over rows 0..pos |
| Engine.Engine.ForwardLayerPost | src/ds3_engine.c:547-597 | One row's expert half |
| Engine.Engine.ForwardLayerGpuOnly | src/ds3_engine.c:638-719 | One layer in one piece: the row appended, and the hidden vector the attention half and the expert half leave together |
| Engine.Engine.OverlappedLayers | src/ds3_engine.c:1410-1461 | The overlapped schedule of a token pass ends as the plain one |
| Engine.Engine.LayerByLayer | src/ds3_engine.c:1462-1480 | The fallback schedule ends as the reference |
| Engine.Engine.GpuOnlyLayers | src/ds3_engine.c:1403-1409 | So does the schedule with one command buffer per layer and no read-back of the router |
| Engine.Engine.ForwardToken | src/ds3_engine.c:1354-1523 | Succeeds exactly if there is room and the token is in the vocabulary; then cache, logits and token are those of the reference, on each of the three schedules |
| Generate.Download | src/ds3_engine.c:3063-3075 | The host image is the layer-major image of the first n rows |
| Generate.Upload | src/ds3_engine.c:3079-3091 | A layer-major image of n rows restores exactly those rows; it succeeds exactly if all 2*layers buffer writes do |
| Generate.TryCache | src/ds3_engine.c:3143-3181 | Whatever lookup, allocation, read or upload does, the engine stands as after a cold run over the prefix it reuses, and reuses a non-empty one only if all of them worked; the reported length is the looked-up one in any case |
| Generate.Rewound | src/ds3_engine.c:3189-3196 | Stepping back to a shorter history is sound: rows behind it are never looked at |
| Generate.AtStart | src/ds3_engine.c:3143-3152 | Stale rows of an earlier call do not matter at position 0 |
| Generate.PrefillChunks | src/ds3_engine.c:3217-3234 | Prefill by chunks of any valid size, from any cached prefix, ends as a cold run over the prompt; -1 exactly if a pass it reaches fails or meets a token outside the vocabulary first, -2 exactly if it first reaches a check behind the deadline |
| Generate.PrefillTokens | src/ds3_engine.c:3235-3242 | Prefill token by token does too, with the same outcomes |
| Generate.Prefill | src/ds3_engine.c:3186-3242 | So does the fully cached case, which re-runs the last token and looks at the deadline behind it |
| Generate.PassFails | src/ds3_engine.c:3223-3242 | A failing pass decides the outcome: -1, and no deadline check would have come before it |
| Generate.Decode | src/ds3_engine.c:3245-3263 | Emits the cold run's tokens and keeps prompt plus output equal to the cached length; after a failed pass it stands one emitted token ahead of the cache, with what the pass left in that row; it stops on the deadline exactly if it reaches that check, with the tokens before it |
| Generate.FailedPass | src/ds3_engine.c:3203-3257 | A pass over any number of tokens that fails part way leaves anything in its own rows and disturbs no row below the cached length |
| Generate.WriteBack | src/ds3_engine.c:3265-3288 | What is handed to the provider: prompt plus output, and the image of that many rows, unless host buffer, download or token array fails |
| Generate.GenerateEx | src/ds3_engine.c:3124-3291 | Prefix caching is transparent: tokens, cache, logits and write-back depend on the prompt and limits alone, for every contract-abiding provider, whichever provider calls and backend passes fail; exactly when it returns -1 (bad arguments, an unknown token or a failed prefill pass) and -2 (the deadline), and then nothing is written back and the tokens so far are the cold run's; n_prompt + n_gen stays within the context and, unless a decode pass fails, equals the cached length |
| Generate.WrittenServes | src/ds3_engine.c:3265-3288 | Any shared prefix cut out of what one call wrote is what the contract asks for a later prompt |
| Generate.TaintedServes | src/ds3_engine.c:3255-3288 | Of all caches whose rows are right but for the last, every one serves a shared prefix rightly if and only if the prefix leaves the last token out |
| Generate.WrongRow | src/ds3_engine.c:3255-3288 | For every stored sequence there is such a cache that is not the cold one: the last K row of the first layer differs |
| Generate.TaintedWrite | src/ds3_engine.c:3255-3288 | After a failed decode pass all rows of the image but the last are those of a cold run |
| KvLayout.HostApart | src/ds3_kv_cache.c:1457-1475 | Different (half, token) cells of the host buffer never overlap |
| KvLayout.HostTiled | src/ds3_kv_cache.c:1457-1475 | Every byte of the host buffer lies in exactly one cell |
| KvLayout.TokenOut | src/ds3_kv_cache.c:1550-1573 | One token's halves, scattered over the host buffer, become one run in the arena; nothing outside it changes |
| KvLayout.HalfIn | src/ds3_kv_cache.c:1463-1473 | One copy fills one cell and changes no byte outside it |
| KvLayout.TokenIn | src/ds3_kv_cache.c:1457-1475 | The run of one token goes back to its cells, one copy each, and leaves the tokens read before alone |
| KvLayout.EachCellOnce | src/ds3_kv_cache.c:1457-1475 | In the copies of a read of n tokens every (half, token) cell is the target of exactly one |
| KvLayout.BlockOut | src/ds3_kv_cache.c:1550-1573 | A block holds the bytes of its tokens in order; nothing outside the block changes |
| KvService.Session.constructor | src/ds3_kv_cache.c:1109-1130 | An empty session, for which the client has no slot yet, satisfies the invariant |
| KvService.FromHeaders | src/ds3_kv_cache.c:1364-1394 | Under the service contract the header loop recovers the session's first recorded blocks |
| KvService.WholeBlocks | src/ds3_kv_cache.c:1396-1409 | As many whole blocks as fit, and not one fewer |
| KvService.UsableBlocks | src/ds3_kv_cache.c:1364-1409 | The blocks kept are as many of the named ones, the first of the record, as fit in the prompt |
| KvService.Session.Lookup | src/ds3_kv_cache.c:1300-1413 | The client has a slot from then on; the length settled on is that of the usable blocks, 0 on every rejected reply; a matching hash makes it shared up to the named prefix length |
| KvService.KeptIsShared | src/ds3_kv_cache.c:1344-1409 | Of all records consistent with an accepted reply, every one shares the kept length with the prompt if and only if that length is within the named prefix |
| KvService.KeepsTooMuch | src/ds3_kv_cache.c:1396-1409 | A reply within the contract on which the code keeps 16 tokens of which 10 are shared |
| KvService.Session.ReadBlocks | src/ds3_kv_cache.c:1433-1478 | Blocks of varying size, of which the range takes parts, fill the host buffer with exactly the asked tokens, copy number k going to cell number k |
| KvService.Session.Read | src/ds3_kv_cache.c:1415-1479 | Succeeds exactly with a slot and within the looked-up length; then every layer, half and token of the range is the bytes last written for it, each cell copied once; else nothing is touched |
| KvService.Session.WriteBlocks | src/ds3_kv_cache.c:1550-1573 | The new blocks cut the tokens behind the cached prefix, one per slot, full but for the last, hold their bytes, and no recorded block is disturbed |
| KvService.Session.Write | src/ds3_kv_cache.c:1481-1623 | When it succeeds and when not, for any new sequence, with a slot or without; the whole new record is that of the abstract write, block list and client length included, with the recorded bytes up to the cached length and the new ones behind; on any failure the record is untouched |
| KvService.RunTurns | src/ds3_kv_cache.c:1300-1623 | Any number of turns from any state, each extending the sequence last stored, with truthful lookups of anything in between or none at all, free slots in any order, and any allocations and stores refused: each return code, the whole final record, and that it holds the last stored turn with its bytes |
| KvService.SlotsAreFree | src/ds3_kv_cache.c:1509-1533 | If no slot is handed out twice in a run, the slots of every turn are free when it comes |
| KvService.ReadBack | src/ds3_kv_cache.c:1300-1479 | Lookup then read, for every truthful reply: succeeds exactly within the looked-up length, and then returns for every layer, half and token of the range the bytes recorded, each cell copied once |
| KvLocal.LocalSession.Lookup | src/ds3_kv_cache.c:336-351 | The length of the longest common prefix |
| KvLocal.LocalSession.Read | src/ds3_kv_cache.c:353-366 | Succeeds exactly within the stored length; a slice of the stored image |
| KvLocal.LocalSession.Write | src/ds3_kv_cache.c:368-383 | Replaces tokens and image together, or, over the capacity for either, changes nothing |
| KvLocal.SliceServesPrefix | src/ds3_kv_cache.c:353-366 | A raw slice is the prefix's layer-major image for every stored cache if and only if nothing or everything is read |
| Turns.ReadIsLayerMajor | src/ds3_kv_cache.c:1415-1479 | The bytes a service read leaves are the layer-major image of the cache whose rows were stored token by token |
| Turns.ServiceAnswersFaithful | src/ds3_engine.c:3153-3181 | A host buffer with the first tokens of a stored sequence meets, for every prompt that shares them, the contract under which caching is transparent |
| Turns.TokenMajorPrefix | src/ds3_kv_cache.c:1415-1479 | The first tokens of a stored cache are the tokens of its prefix |
| Turns.ImageHolds | src/ds3_kv_cache.c:1533-1573 | The engine's layer-major image, as bytes, is a host buffer that holds the cache's tokens |
| Turns.ColdSized | src/ds3_engine.c:1775-1787 | Every row of a cold cache has the size the kernels store |
| Turns.EmptyBacks | src/ds3_kv_cache.c:1109-1130 | A new session backs every engine of its size |
| Turns.Serve | src/ds3_engine.c:3153-3181 | Lookup and read of a session whose first rows are right answer as the engine's contract asks, whatever fails, if the lookup settles within those rows |
| Turns.WrittenImage | src/ds3_engine.c:3265-3288 | What a call hands to the service is the cold image, or, after a failing decode pass, the cold image but for its last row |
| Turns.StoreBack | src/ds3_engine.c:3265-3288 | After the write the session's tokens and blocks are the new ones and its first rows right as far as those written, if it was stored, and all as before if not |
| Turns.ServedCall | src/ds3_engine.c:3124-3291 | One call with lookup, read, generation and write against the service answers as a cold run, or with its front up to a failing decode pass or the deadline; what the service then holds, exactly, and that it is what a cold run would have left, but for a last row after a failing decode pass |
| Turns.Conversation | src/ds3_engine.c:3124-3291 | Any number of calls with prompts as they come, provider calls, passes, allocations and stores failing at will and deadlines passing at any check: every answer is that of a cold run or the front of it up to the failing decode pass or the deadline; the service ends with the tokens, blocks and sound rows the calls come to |
| Turns.TaintComes | src/ds3_engine.c:3255-3288 | A call leaves a last row to be careful about exactly if its write is stored after a failing decode pass; a stored write of any other call ends that |
| Turns.NeverTainted | src/ds3_engine.c:3255-3288 | In a run without failing decode passes there is never such a row |
| Turns.HonestRun | src/ds3_engine.c:3153-3181 | A remote that keeps to the contract meets what a run asks of each call, if it does not settle on the whole of a record whose last row is such a one |
| Turns.CarefulServes | src/ds3_kv_cache.c:1300-1413 | There is such a remote: it settles on every shared block boundary but the record's end, and allocates and stores whatever there is room for |
| Turns.CarefulRun | src/ds3_engine.c:3124-3291 | With it every run of any calls, whatever fails in them, gets what it asks for |
| Turns.LocalAnswersFaithful | src/ds3_engine.c:3153-3181 | So does the local provider when it reads nothing or everything |
| Utf8.PutThenRead | src/ds3_tokenizer.c:185-226 | Reading a written codepoint gives it back and takes exactly its bytes, for every codepoint below 2^21 and whatever follows (RFC 3629, section 3) |
| Utf8.InitByteTables | src/ds3_tokenizer.c:144-162 | The two table-filling loops leave the byte-to-codepoint map and its inverse |
| Utf8.NextCp | src/ds3_tokenizer.c:144-162 | The running counter yields the table's entry for each byte, and no other codepoint maps back to it |
| Utf8.MovedIs | src/ds3_tokenizer.c:144-162 | How many bytes below b are moved: 68 in all |
| Utf8.ByteEncode | src/ds3_tokenizer.c:360-369 | The loop writes the symbol of each byte in turn |
| Utf8.ByteDecode | src/ds3_tokenizer.c:377-394 | The loop maps each codepoint back and drops those that stand for no byte |
| Utf8.DecEncThen | src/ds3_tokenizer.c:360-394 | Byte decoding undoes byte encoding for every byte string, whatever follows it |
| Utf8.EncHasNoSpace | src/ds3_tokenizer.c:360-369 | No encoded byte is 0x20 or below |
| Tables.NextPow2 | src/ds3_tokenizer.c:46-50 | The least power of two that reaches n, for every n a 32-bit power of two can reach |
| Tables.NeverReached | src/ds3_tokenizer.c:46-50 | However often it is doubled, the 32-bit word stays at 2^31 or below, so for a larger n the loop does not end |
| Tables.Table.constructor | src/ds3_tokenizer.c:52-58 | An empty map, with more than twice the slots of the keys it is sized for |
| Tables.Table.Find | src/ds3_tokenizer.c:65-99 | Every probe ends, at the slot of the key if it is in the map, else at the free slot where it belongs |
| Tables.Table.Put | src/ds3_tokenizer.c:65-82 | The map gains or renews exactly this key |
| Tables.Table.Get | src/ds3_tokenizer.c:84-99 | The last value put for the key, or nothing exactly if it was never put |
| Tables.OneSlot | src/ds3_tokenizer.c:65-82 | No key ever lies in two slots |
| Tables.FreeSlot | src/ds3_tokenizer.c:65-99 | A table within its load has a free slot, where a probe must stop |
| Tables.Load | src/ds3_tokenizer.c:753-793 | The loader's tables map each string to its index |
| Tables.NumberedIsLast | src/ds3_tokenizer.c:753-793 | Of equal strings the last index wins, and exactly the listed strings are keys |
| Bpe.JointIsUnambiguous | src/ds3_tokenizer.c:416-431 | Two pairs of space-free symbols share a space-joined key only if they are the same pair |
| Bpe.MergeAllEnds | src/ds3_tokenizer.c:470-503 | Merging ends with no adjacent pair that could be merged |
| Bpe.MergeAllKeepsConcat | src/ds3_tokenizer.c:470-503 | Merging never changes the text the symbols spell |
| Bpe.MergeAllKeepsSymbols | src/ds3_tokenizer.c:470-503 | Symbols stay byte-encoded text and, in a vocabulary closed under its merges, known tokens |
| Bpe.PieceRoundTrip | src/ds3_tokenizer.c:442-522 | The tokens of a piece spell the piece, and are no more than its bytes |
| Vocabulary.Vocab.constructor | src/ds3_tokenizer.c:732-851 | A loaded vocabulary: tables, byte maps and added tokens agree with the strings and merges of the model file |
| Vocabulary.Vocab.BpeRank | src/ds3_tokenizer.c:416-431 | The rank of a pair under its joined key, or -1 |
| Vocabulary.Vocab.BestPair | src/ds3_tokenizer.c:472-483 | The leftmost pair of lowest rank, or none exactly if no pair can be merged |
| Vocabulary.Vocab.MergeAt | src/ds3_tokenizer.c:487-502 | The in-place shift is the merge of that pair |
| Vocabulary.Vocab.MergeLoop | src/ds3_tokenizer.c:470-503 | The array loop refines: merge the leftmost lowest-rank pair until there is none |
| Vocabulary.Vocab.Split | src/ds3_tokenizer.c:450-461 | Encoded text is cut into the symbols of its bytes |
| Vocabulary.Vocab.EmitAll | src/ds3_tokenizer.c:505-518 | Each symbol's token, or the tokens of its bytes if it has none |
| Vocabulary.Vocab.EncodePiece | src/ds3_tokenizer.c:442-522 | The tokens of a piece are those of its fully merged symbols |
| Vocabulary.FindAdded | src/ds3_tokenizer.c:808-843 | The added tokens are those of the 26 texts the vocabulary knows, in order, with their ids |
| Vocabulary.AddedTextsAreTags | src/ds3_tokenizer.c:808-843 | Each of them is printable, has `<` at its start only and `>` at its end only |
| Scanner.PieceLen | src/ds3_tokenizer.c:569-712 | A piece is never empty and never reaches past the segment |
| Scanner.PiecesTile | src/ds3_tokenizer.c:569-712 | The pieces are non-empty and in order make up the whole segment, on every byte string |
| Scanner.NextPiece | src/ds3_tokenizer.c:569-712 | The scanning code of one turn ends where the piece function says |
| Scanner.NextBlanks | src/ds3_tokenizer.c:651-711 | So do the white-space branches; the fallback behind them is unreachable |
| Scanner.BacktrackBlanks | src/ds3_tokenizer.c:676-697 | The backward search takes a blank run to the end of the text, or up to its last blank |
| Regex.ContractionsAgree | src/ds3_tokenizer.c:537-551 | The contraction test is the regex's first alternative, on every byte string |
| Regex.WordsAgree | src/ds3_tokenizer.c:583-614 | The letter branches are its second alternative |
| Regex.SignsAgree | src/ds3_tokenizer.c:623-649 | The symbol branch is its fourth alternative |
| Regex.LinesAgree | src/ds3_tokenizer.c:651-671 | The newline branch is its fifth alternative, with backtracking into the blank run |
| Regex.TrailingAgrees | src/ds3_tokenizer.c:673-698 | The look-ahead branch is its sixth alternative |
| Regex.PieceIsMatch | src/ds3_tokenizer.c:569-712 | On ASCII without VT and FF a piece is the leftmost-first match of the whole regex |
| Regex.ScannerRefinesRegex | src/ds3_tokenizer.c:553-712 | There, the pieces are the successive matches of the regex |
| Regex.PartOnVerticalTab | src/ds3_tokenizer.c:553-712 | On VT or FF before an exclamation mark the scanner takes two bytes and the regex one |
| Regex.AgreeWithoutTabs | src/ds3_tokenizer.c:553-712 | Over an ASCII alphabet with the exclamation mark, scanner and regex agree on all texts if and only if VT and FF are not in it |
| Tokenizer.TokenizeSegment | src/ds3_tokenizer.c:569-712 | The loop appends the tokens of the segment's pieces in order |
| Tokenizer.SegmentRoundTrip | src/ds3_tokenizer.c:569-712 | The tokens of a segment spell it |
| Tokenizer.FindLongest | src/ds3_tokenizer.c:889-902 | The longest added token that starts here, or none exactly if none starts |
| Tokenizer.FindNext | src/ds3_tokenizer.c:910-917 | The nearest place where any added token starts, or the end |
| Tokenizer.EncodeAll | src/ds3_tokenizer.c:887-921 | The loop computes the encoding function |
| Tokenizer.VocabEncode | src/ds3_tokenizer.c:877-927 | The first tokens of the encoding that fit, how many, and nothing else written; -1 for no room |
| Tokenizer.AddedAreTags | src/ds3_tokenizer.c:808-843 | What the loader leaves satisfies the condition of the distribution law |
| Tokenizer.TagsPrefixFree | src/ds3_tokenizer.c:808-843 | No added token is a proper prefix of another |
| Tokenizer.EncodeRoundTrip | src/ds3_tokenizer.c:877-969 | The tokens of any text spell that text, and are no more than its bytes |
| Tokenizer.EncodeDistributes | src/ds3_tokenizer.c:887-921 | encode(a + s + b) = encode(a) + id(s) + encode(b) for every added token s and all a and b |
| Tokenizer.DecodeSequence | src/ds3_tokenizer.c:934-969 | As much of the text as fits before a closing zero; an error exactly for no tokens or no buffer |
| Tokenizer.EncodeThenDecode | src/ds3_tokenizer.c:877-969 | The two calls return every NUL-free text that is not empty, and fail exactly on the empty one |
| Chat.BuildChatPrompt | tools/qwen3-engine-daemon.c:819-852 | The buffer built is preamble, history, new user message and opening marker |
| Chat.PromptsShareTokens | tools/qwen3-engine-daemon.c:785-852 | The token sequences of one prompt and of any later prompt of the session share the tokens of preamble and history and the marker behind them |
| Sessions.NextKeeps | tools/qwen3-engine-daemon.c:604-720 | Every step of every thread keeps the invariant |
| Sessions.RunKeeps | tools/qwen3-engine-daemon.c:604-720 | Every state of every run satisfies it |
| Sessions.HolderKnows | tools/qwen3-engine-daemon.c:604-622 | A thread waiting for a session's mutex holds sessions_mutex; whoever holds it has the session in the table, or is the one removing it |
| Sessions.LifetimeSafety | tools/qwen3-engine-daemon.c:604-720 | In every reachable state no freed session is locked, held or awaited, and when one is about to be freed nobody else holds or awaits it |
| Sessions.TableSafety | tools/qwen3-engine-daemon.c:636-720 | Ids in the table are unique, the limit is kept, table entries are alive, and no live session is lost |
| Sessions.SwapRemoved | tools/qwen3-engine-daemon.c:613-622 | Moving the last entry into the gap removes exactly the one session and keeps the table well formed |
| Sessions.EvictsOldest | tools/qwen3-engine-daemon.c:645-663 | The evicted session is locked and none of the idle sessions tried was used longer ago |
| Sessions.ReapsOnlyExpired | tools/qwen3-engine-daemon.c:1893-1916 | A session the reaper removes has been idle longer than the timeout until it is gone |
| Sessions.WantsAbove | tools/qwen3-engine-daemon.c:1287-1312 | Every blocking acquire is of strictly higher rank than all locks the thread holds, also inside provider calls |
| Sessions.NoWaitCycle | tools/qwen3-engine-daemon.c:1369-1412 | No reachable state has a cycle of threads each waiting for the next |
| Sessions.NoDeadlock | src/ds3_kv_cache.c:980-1075 | Behind every blocked thread of a reachable state stands, along the waits, one that can step |
| Json.EscapeToBuf | tools/qwen3-engine-daemon.c:759-779 | The loop appends the escape of each byte |
| Json.JsonString | tools/qwen3-engine-daemon.c:182-230 | The parser's loop on any text: the string, how far it reached, or failure |
| Json.BodyRoundTrip | tools/qwen3-engine-daemon.c:182-230 | Parsing undoes escaping for every NUL-free string and stops behind the quote |
| Json.StringRoundTrip | tools/qwen3-engine-daemon.c:759-779 | A printed string with anything behind it is read back whole, and nothing behind it is touched (RFC 8259, section 7) |
| JsonSkip.SkipValue | tools/qwen3-engine-daemon.c:298-311 | Where skipping one value ends, on any text and depth |
| JsonSkip.SkipElementsLoop | tools/qwen3-engine-daemon.c:260-274 | The same for the elements of an array |
| JsonSkip.SkipMembersLoop | tools/qwen3-engine-daemon.c:276-296 | The same for the members of an object |
| JsonSkip.SkipPrinted | tools/qwen3-engine-daemon.c:258-311 | A printed value anywhere in a text is skipped to its last byte if its nesting stays within the limit, and refused if not; only a number needs something that ends it |
| JsonSkip.SkipDocument | tools/qwen3-engine-daemon.c:258-313 | A printed document with anything behind it (a number: anything that ends a numeral): exactly its bytes, if and only if it nests at most 256 deep |
| Varints.VarintIsBase128 | src/kvcache/pb_encode.c:573-623 | The encoding's groups give the number back, and only its last byte ends it |
| Varints.VarintFits | src/kvcache/pb_encode.c:573-623 | Every 64-bit number takes at most ten bytes |
| Varints.EncodeVarint32 | src/kvcache/pb_encode.c:573-605 | The split-word loops emit the base-128 form of the 64-bit number |
| Varints.EncodeVarint | src/kvcache/pb_encode.c:607-623 | So does the entry point with its one-byte shortcut |
| Varints.IStream.DecodeVarint | src/kvcache/pb_decode.c:243-263 | Succeeds exactly if a well-formed varint of at most 64 bits stands at the front; its value, and exactly its bytes |
| Varints.DecodeUndoesEncode | src/kvcache/pb_decode.c:243-263 | The decoder accepts the encoding of a number, whatever follows, at its own length only, with its value |
| Varints.ZigZagRoundTrip | src/kvcache/pb_encode.c:625-635 | Zig-zag is undone for every 64-bit integer, and a magnitude takes one byte exactly below 64 |
| Varints.Unzigzagged | src/kvcache/pb_decode.c:1356-1368 | The decoder's value is the one integer whose zig-zag is the word |
| Varints32.DecodeVarint32 | src/kvcache/pb_decode.c:171-240 | The loop with its masks, on any bytes: value and length, or which error |
| Varints32.ReadsEncoding | src/kvcache/pb_decode.c:171-240 | Of the encodings of 64-bit numbers, exactly which ones it accepts, as which value |
| Varints32.AcceptsBothSigns | src/kvcache/pb_decode.c:171-240 | Every uint32 and every sign-extended negative int32 is among them, with its own low word |
| Varints32.AcceptsMore | src/kvcache/pb_decode.c:205-230 | So is 2^35 - 2^31, which is neither |
| FieldIter.LowTagBits | src/kvcache/pb_common.c:229-233 | The six-bit quick check never misses a field with the tag |
| FieldIter.Iter.Load | src/kvcache/pb_common.c:8-120 | Tag and type loaded are those of the field stood on |
| FieldIter.Iter.Advance | src/kvcache/pb_common.c:122-154 | Moves to the next field or wraps, with word, required-field and submessage counters equal to their prefix sums |
| FieldIter.Iter.Next | src/kvcache/pb_common.c:188-193 | False exactly when the walk is back at the first field |
| FieldIter.Iter.Find | src/kvcache/pb_common.c:195-244 | From any consistent state: ends, succeeds exactly if the tag is the current one or that of a non-extension field, and keeps the counters; that is whether such a field exists, exactly unless it starts on an extension range with the tag |
| FieldIter.FindsRange | src/kvcache/pb_common.c:195-244 | A descriptor on which a search finds a tag that no non-extension field has |
| FieldIter.Walk | src/kvcache/pb_common.c:156-193 | A walk from the beginning visits all fields in order |
| MessageWriter.OStream.Write | src/kvcache/pb_encode.c:84-105 | Counts and, unless it only sizes, appends the bytes; fails exactly over the stream's size |
| MessageWriter.WriteValue | src/kvcache/pb_encode.c:362-403 | A value's encoding, on sizing and writing streams alike |
| MessageWriter.WritePacked | src/kvcache/pb_encode.c:128-200 | Key, the size found by a sizing pass or by multiplication, and exactly that many bytes |
| MessageWriter.WriteKeyed | src/kvcache/pb_encode.c:202-240 | Each value of an unpacked array with its key |
| MessageWriter.WriteSlot | src/kvcache/pb_encode.c:418-469 | A field's encoding; nothing for absent, empty and zero-valued singular fields |
| MessageWriter.WriteMessage | src/kvcache/pb_encode.c:512-534 | All fields in descriptor order; fails exactly if a value does not fit or the stream is full |
| MessageWriter.WriteSubmessage | src/kvcache/pb_encode.c:724-772 | The sizing pass counts exactly the bytes the writing pass emits, so the check behind it never fires |
| MessageWriter.SizeThenWrite | src/kvcache/pb_encode.c:557-566 | A buffer of the sized length is filled exactly |
| MessageReader.ReadWindow | src/kvcache/pb_decode.c:362-390 | The substream is the announced bytes; fails exactly if they are not there |
| MessageReader.SkipField | src/kvcache/pb_decode.c:308-318 | Skips exactly one value of the wire type, or fails |
| MessageReader.LookUp | src/kvcache/pb_decode.c:1042-1077 | The cyclic search, from wherever the iterator stands, ends on the field a scan from the front finds, for every descriptor of the fields |
| MessageReader.ReadValue | src/kvcache/pb_decode.c:396-465 | A value off the front of the stream, and how many bytes |
| MessageReader.ReadSlot | src/kvcache/pb_decode.c:467-555 | How a field's bytes change its slot, packed or not, or fail |
| MessageReader.ReadField | src/kvcache/pb_decode.c:1016-1126 | One key and its field: what they do to the slots, or failure |
| MessageReader.ReadMessage | src/kvcache/pb_decode.c:990-1152 | The loop over keys on any bytes: the resulting slots, or failure |
| MessageReader.Decode | src/kvcache/pb_decode.c:1182-1194 | The same from a message set to its defaults |
| MessageRoundTrip.ValBack | src/kvcache/pb_decode.c:396-465 | A value of every kind is decoded from its encoding, whatever follows |
| MessageRoundTrip.SlotBack | src/kvcache/pb_decode.c:467-555 | A field's bytes set its slot, and no other, to the value they came from |
| MessageRoundTrip.MessageBack | src/kvcache/pb_decode.c:990-1152 | Decoding an encoded message restores every field at every depth, with absent and zero fields at their defaults |
| MessageRoundTrip.RoundTripIsIdentity | src/kvcache/pb_encode.c:418-469 | The round trip is the identity if and only if no absent optional field holds a value |
| MessageRoundTrip.DropsAbsent | src/kvcache/pb_encode.c:418-469 | A message the round trip changes: an absent optional field holding 5 comes back holding 0 |
| MessageRoundTrip.DecodeSplits | src/kvcache/pb_decode.c:990-1152 | Bytes that decode on their own may be decoded first, the rest onto the result |
| MessageRoundTrip.UnknownIgnored | src/kvcache/pb_decode.c:1042-1077 | A field of unknown tag put between others does not change what is decoded |
| TopK.Best | src/ds3_reference.c:474-484 | The inner loop finds the unused index above the sentinel that comes first, highest score, then lowest index, and -1 exactly if there is none |
| TopK.TopK | src/ds3_reference.c:466-490 | For every k up to the number of scores above the sentinel: distinct indices in range, non-increasing scores, nothing better left out, ties to the lowest index, and the rest of the buffers untouched |
| TopK.NothingLeft | src/ds3_reference.c:474-486 | As many picks as there are scores above the sentinel have taken all of them, so one pick more finds no index |
| TopK.SelectedIsFront | src/ds3_reference.c:466-490 | Such a selection is the first k of the stable descending sort, entry by entry |

## Left out

- Metal kernels and numerics: kernels are functions over reals; rounding, RoPE, softmax, dequantisation and FP16 storage are not interpreted.
- Sampling at a temperature above 0 and its random numbers: sampling is argmax.
- Profiling, environment variables, the CLI, and the debug comparisons and captures; the clock behind a deadline is an input, the number of the first check that finds it passed.
- Shared experts: the gathered path tests the tensors and the other paths also a flag, so no shared tensors are assumed.
- Chunks of more than 512 tokens: the scratch buffers hold 512.
- GGUF parsing and weight binding.
- Sockets, shared memory, timeouts, the reconnect retry and the Rust service: the environment contract of `KvService` (free disjoint slots, ordered and truthful headers, a prefix no longer than the prompt, hashes that tell) stands for them.
- Several sessions or daemons in one arena: one session is modelled, so the client's session table never fills; the others appear only as slots apart from its own.
- The local provider's slot table, session-id truncation and byte widths: one session, counted in rows.
- Allocation failures of host memory other than those listed as inputs, growth of buffers, null-argument checks.
- Tables.NextPow2: takes n of at most 2^31, because for a larger one the loop does not end (`Tables.NeverReached`).
- Tables.Table.constructor: does not model the wrap-around of the 32-bit capacity, because it takes close to 2^30 keys or more; so do Tables.Load and Vocabulary.Vocab.constructor, which call it.
- Tables.Load: see Tables.Table.constructor.
- Vocabulary.Vocab.constructor: see Tables.Table.constructor.
- The hash function of the table and `strtod` are parameters.
- UTF-8 boundaries of pieces: the digit branch advances one byte, so a piece may cut a character; the tiling and the round trip hold all the same.
- `ds3_chat_format`, tool-call extraction, think-block stripping, and which requests a line may hold.
- The daemon's work queue, shutdown wake-ups, and accesses to the engine pointer made without its lock.
- Sessions.LifetimeSafety: names sessions by allocation, because an address reused by malloc would be a different session; the clock is assumed not to run backwards.
- Provider calls in `Sessions` are reduced to the locks they take.
- Message codec: callbacks, oneofs, required fields, extensions, repeated fields of fixed count (src/kvcache/pb_decode.c:1080-1098), pointer fields, NUL-terminated strings and fixed-length bytes, non-zero default values, fields over 65535 bytes, size_t overflow.
- KvService.Session.Write: does not model a store the service has recorded but whose reply is lost, because a failed store (`KvService.Stored`) stands for one that changed nothing.
- TopK.TopK: does not model more picks than there are scores above the sentinel -1e30, because the code then writes in front of its buffer.
- Turns.Conversation: takes a remote that, at each lookup made, names blocks that end within the named prefix where they fit in the prompt, because the code does not check that (`KvService.KeptIsShared`), and that does not settle on the last row of a record stored after a failing decode pass, because that row may be wrong (`Generate.TaintedServes`).
- Turns.ServedCall: see Turns.Conversation.
- FieldIter.Iter.Load: does not model array size, data size, offsets, pointers and the submessage descriptor, because the lookup and the counters do not depend on them.
- MessageReader.ReadMessage: does not model the bookkeeping of required, extension and fixed-count fields, because the RPC messages have none; the lookup is a scan of the field list, which `MessageReader.LookUp` shows the iterator's search to agree with.
- An arena that cannot be mapped during a lookup or read.
