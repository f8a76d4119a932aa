# zearch in Dafny

This is a model of the core of **zearch**, a small code-search engine
written in Go.

The engine first indexes files. Each file's content is split into
tokens, and the file's directory pieces, its name and its extension are
weighted. Every term is posted into an in-memory inverted index,
`term -> [id<<10 | weight]`, held per segment. A segment is flushed to
disk in three parts:
- a sorted dictionary of terms, a header/data "stored string array";
- a postings file of little-endian 32-bit entries;
- a forward array from document ordinal to path.

A search tokenizes the query text and builds a term query or a
conjunction of term queries. It then walks every segment's postings with
`Next`/`Advance` cursors and calls back with a composite id
`segment<<24 | doc` and a score. The 100 best hits are kept in
descending score order and resolved back to paths.

The modules follow the program:

| module | file | what it models |
|---|---|---|
| `Bytes` | bytes.dfy | little-endian `getUint32`/`putUint32`/`getUint64`/`putUint64`, `bytes.Compare`, ASCII lower-casing |
| `Stored` | stored.dfy | `StoredStringArray`: `write`, `count`, `bcmp`, `read`, `bsearch` |
| `Postings` | postings.dfy | the postings-list encoding and the cursor vocabulary (`NO_MORE`, `NOT_READY`, doc/weight of an entry) |
| `Segments` | segment.dfy | `Segment`: `NewSegment`, `addForward`, `addInverted`, `findPostingsList`, `flushToDisk`, the `ByBytes` sort |
| `Tokenizer` | tokenizer.dfy | the index package's `Tokenize` with its keyword boost, and the tokenizer test vectors |
| `QueryTerms` | queryterms.dfy | the root package's `isAlphaNumericNotOnlyDigit` and `tokenize` filter |
| `Queries` | query.dfy | `Term`, `BoolAndQuery`, `BoolOrQuery`: `Prepare`, `Cost`, `Score`, `Next`, `advance` |
| `Indexing` | index.dfy | the index package's `Index`: `NewIndex`, `ExecuteQuery`, `FetchForward`, `Stats` |
| `Weighting` | weights.dfy | `tokenizeAndAdd`: `inc`, `edge`, the per-file weights, clamping and packing |
| `Search` | search.dfy | the `/search` handler: query building, the top-100 `add`, path resolution, totals |
| `Legacy` | legacy.dfy | the older root-package `Index`: `NewIndex`, `executeQuery`, `fetchForward`, `stats`, `adder` |

Conventions of the model:
- Bytes are integers in `[0, 256)`.
- `uint32`, `uint64` and `int32` are subset types of `int`. Wrap-around
  is written out where the source relies on it, e.g. `Int32Of`, the
  offset `off += uint32(len)` of `write`, and `Cost` modulo 2^32.
- A memory-mapped file is the sequence of its bytes.
- Writing a stored array seeks to the start and does not truncate. The
  new file is the written bytes over the old ones (`Stored.Overwrite`).
- Reading past the end of a slice, which panics in Go, is the
  `ReadResult.Panic` outcome.

Where the system's own description and the code disagree, the code is
followed:
- **`read`'s guard is `id > count`, not `id >= count`.** So `read(count)`
  indexes past the header. The model returns `Panic` there
  (`Stored.Read`, `Stored.ReadAfterWrite`).
- **`FetchForward`'s segment guard is `segment > len(segments)`.** An id
  of the segment one past the last panics (`Indexing.Index.FetchPastEnd`,
  `Legacy.FetchPastLastShard`).
- **`main.go` calls `executeQuery` with a callback `func(id int32, score
  int64)`.** This is the signature of the index package's
  `ExecuteQuery`, not of the root `index.go` (which passes the path too),
  so `Search` is wired to `Indexing`.
- **A clamped weight of 1024 overflows its 10 bits.** Packing
  `id<<10 | 1024` sets the id's lowest bit. The model keeps the code's
  arithmetic and states the effect (`Weighting.PackClamped`,
  `Weighting.ClampedEntryCollides`).

## Model

| member | source | states |
|---|---|---|
| `Bytes.FromToLe` | index/util.go:57-89 | decoding the n little-endian bytes of a value below 256^n gives the value back |
| `Bytes.ToFromLe` | index/util.go:57-89 | encoding the value of a byte string at its own width gives the string back |
| `Bytes.Le32Bytes` | index/util.go:61-73 | the 4 bytes written by `putUint32` are `v>>0, v>>8, v>>16, v>>24`, each masked to 8 bits |
| `Bytes.Le64Bytes` | index/util.go:80-89 | the 8 bytes written by `putUint64` are `v>>8k & 0xFF` for k = 0..7 |
| `Bytes.GetUint32Bytes` | index/util.go:57-59 | the 32-bit word at `off` is `b[off] + 2^8·b[off+1] + 2^16·b[off+2] + 2^24·b[off+3]` |
| `Bytes.GetUint64Bytes` | index/util.go:75-78 | the 64-bit word at `off` is the sum of `2^(8k)·b[off+k]` for k = 0..7 |
| `Bytes.Le32OfGet` | index/util.go:57-73 | re-encoding a read 32-bit word gives back the 4 bytes it was read from |
| `Bytes.Le64OfGet` | index/util.go:75-89 | re-encoding a read 64-bit word gives back the 8 bytes it was read from |
| `Bytes.GetUint32Within` | index/util.go:57-59 | a word read inside a concatenation depends only on the part it lies in |
| `Bytes.PutUint32Off` | index/util.go:61-66 | writes v's 4 little-endian bytes at `off`, leaves every other byte, and reading back at `off` yields v |
| `Bytes.PutUint32` | index/util.go:68-73 | writes v's 4 little-endian bytes at 0, leaves the rest, and reading back yields v |
| `Bytes.PutUint64` | index/util.go:80-89 | writes v's 8 little-endian bytes at 0, leaves the rest, and reading back yields v |
| `Bytes.Compare` | segment.go:86-88 | byte-wise comparison is 0 exactly on equal strings and is one of -1, 0, 1 |
| `Bytes.CompareAntisym` | segment.go:171-187 | swapping the arguments of the comparison negates it |
| `Bytes.LessTransitive` | segment.go:185-187 | the `ByBytes` order is transitive |
| `Bytes.LessTotal` | segment.go:185-187 | of two distinct strings exactly one is less than the other |
| `Bytes.ToLower` | index.go:77-81 | lower-casing keeps the length and maps each upper-case ASCII letter to its lower-case letter, leaving other bytes |
| `Stored.OffLen` | segment.go:70 | the header word built from `off<<32` and `len` gives back `off` above and `len` below bit 32 |
| `Stored.Overwrite` | segment.go:65-66 | a file rewritten from its start begins with the new bytes and keeps any longer old tail |
| `Stored.Count` | segment.go:82-84 | the count is the number of whole 16-byte header records |
| `Stored.Read` | segment.go:90-100 | an id above the count is not found; the id equal to the count gets past the guard and panics; an id below it yields its stored item |
| `Stored.StoredStringArray.constructor` | segment.go:48-55 | the array holds the given header and data files |
| `Stored.StoredStringArray.Write` | segment.go:62-80 | header and data become the record/byte layout of the input (offset with 32-bit wrap, length, extra) written over the old contents |
| `Stored.StoredStringArray.Stream` | segment.go:68-79 | the loop sends, item by item, the offset/length word (offset wrapped to 32 bits) and the extra to the header, and the items back to back to the data |
| `Stored.StoredStringArray.Probe` | segment.go:106-111 | one probe compares the input with the record at the uint32 offset `mid*16`, which is record `mid mod 2^28` |
| `Stored.WrappedEntry` | segment.go:107-114 | the uint32 offset `mid*16` is that of record `mid mod 2^28`, and the extra word 8 bytes on does not wrap |
| `Stored.AddWrap` | segment.go:78 | adding to an already wrapped uint32 gives the wrapped sum |
| `Stored.StoredStringArray.Bcmp` | segment.go:86-88 | the comparison is 0, negative or positive exactly when the stored slice equals, precedes or follows the probe |
| `Stored.StoredStringArray.Bsearch` | segment.go:102-124 | probes read the record at the uint32 offset `mid*16`; a hit names a record holding the probe and returns its extra; a miss returns 0, and on a sorted array of at most 2^28 records means no record holds the probe |
| `Stored.HeaderEntry` | segment.go:68-79 | record k of the written header holds item k's data offset (mod 2^32) and length, then its extra |
| `Stored.DataItem` | segment.go:77 | item k sits in the written data at the sum of the lengths before it |
| `Stored.WriteThenRead` | segment.go:62-100 | after `write` the count is the number of items and record k reads back item k and extra k |
| `Stored.ReadAfterWrite` | segment.go:62-100 | on a written array `read` returns item id for id below the count, panics at the count, and finds nothing above it |
| `Stored.WriteSorted` | segment.go:62-80 | writing strictly sorted items gives an array `bsearch` may search |
| `Stored.StaleTail` | segment.go:62-84 | rewriting with fewer items leaves the old records in place, so a rewrite with no items still counts 1 |
| `Postings.DocAt` | index/query.go:64-66 | the document of entry k, `entry>>10`, lies in `[0, 2^22)` |
| `Postings.WeightAt` | index/query.go:52-54 | the weight of entry k, `entry & 0x3FF`, lies in `[0, 1024)` |
| `Postings.WeightOfAt` | index/query.go:52-54 | on an ascending list the weight of a document is the weight of the entry holding it |
| `Postings.DocOrEnd` | index/query.go:93-101 | moving to a cursor yields its entry's document, or `NO_MORE` past the last entry |
| `Postings.CeilAtLowerBound` | index/query.go:67-101 | on an ascending list, the first entry not below x is the least document at or above x (or `NO_MORE`) |
| `Postings.Encode` | segment.go:204-211 | the encoded list has 4 bytes per id and as many entries as ids |
| `Postings.EncodeDecode` | segment.go:207-211 | reading entry k of an encoded list gives id k back |
| `Segments.InsertSorted` | segment.go:196 | inserting into a sorted list keeps it strictly sorted and adds exactly the new term |
| `Segments.SortedUnique` | segment.go:196 | two strictly sorted lists with the same members are equal, so the flushed order does not depend on map order |
| `Segments.SortByBytes` | segment.go:196 | the sort returns the same terms, strictly ascending by bytes |
| `Segments.CollectKeys` | segment.go:190-195 | the collected terms are exactly the map's keys, each once |
| `Segments.BuildPostings` | segment.go:198-214 | the postings file is the concatenation of the encoded lists, and each term's extra is its list's offset and byte length |
| `Segments.ExtraEntry` | segment.go:200-205 | term k's extra is `offset<<32` combined with `4*len(list)`, the offset being the bytes written before it |
| `Segments.IndexOf` | segment.go:102-124 | the linear reference search finds a record holding the term or proves none from k on does |
| `Segments.FoundList` | segment.go:151-159 | a found term's extra slices the postings file at the list stored for it |
| `Segments.FlushedList` | segment.go:189-214 | after a flush, entry k of the dictionary points at the encoding of term k's in-memory list |
| `Segments.FlushedLookup` | segment.go:151-219 | after a flush, looking a term up yields the encoding of its list, and the empty list for a term not in the map |
| `Segments.FlushThenLookup` | segment.go:151-219 | round trip: flush the in-memory inverted index, then `findPostingsList` returns each term's list and nothing for others |
| `Segments.FlushSearchable` | segment.go:189-214 | flushed dictionaries of at most 2^28 terms are sorted, consistent and reachable by `bsearch`, and their lists are ascending once ids are ascending |
| `Segments.Segment.constructor` | segment.go:136-145 | a new segment has an empty inverted map and 100 empty forward paths, over the given files |
| `Segments.Segment.AddForward` | segment.go:161-165 | appends the path and returns the previous length as an int32; nothing else changes |
| `Segments.Segment.AddInverted` | segment.go:167-169 | appends the entry to the term's list, creating the list if absent; nothing else changes |
| `Segments.Segment.FindPostingsList` | segment.go:151-159 | returns empty or the list of a record holding the term; on a sorted dictionary of at most 2^28 records exactly the term's list |
| `Segments.Segment.EncodeList` | segment.go:204-211 | the buffer is the little-endian encoding of the ids |
| `Segments.Segment.FlushToDisk` | segment.go:189-219 | dictionary, postings and forward files become the flushed layout of the in-memory maps, written over the old contents; the maps are kept |
| `Tokenizer.Tokenize` | index/util.go:16-48 | the byte loop yields exactly the tokens of the reference scan |
| `Tokenizer.TokensAreMaximalRuns` | index/util.go:16-48 | the input is its separator gaps interleaved with the token texts, and inner gaps are non-empty: tokens are the maximal runs of word bytes |
| `Tokenizer.TokensShape` | index/util.go:16-48 | every token is non-empty, made of word bytes, with boost 0 or 1 |
| `Tokenizer.KeywordsUnboosted` | index/util.go:33-41 | every keyword token but the final one has boost 0 |
| `Tokenizer.BoostsFollowKeywords` | index/util.go:16-48 | token j is the word run ending at byte e; a keyword closed before the end has boost 0; any other token has boost 1 exactly when a keyword run ends before e with no newline byte after that keyword's last byte, up to and including byte e |
| `Tokenizer.NoKeywordNoBoost` | index/util.go:9-48 | text without a keyword yields no boosted token |
| `Tokenizer.FoldedWord` | index/util.go:23-26 | the lower-cased byte test accepts exactly the ASCII letters, digits and `_` in either case |
| `Tokenizer.TokenizeHello` | util_test.go:12-16 | a single word is one unboosted token |
| `Tokenizer.TokenizeClassBoost` | util_test.go:17-21 | tokens after `class` on the same line are boosted |
| `Tokenizer.TokenizeNewlineReset` | util_test.go:22-26 | a newline ends the boost and `sub` starts a new one |
| `Tokenizer.TokenizeKeywordBeforeNewline` | index/util.go:20-37 | a keyword directly followed by a newline still boosts the next line's token: the newline resets the boost before the keyword is emitted and sets it |
| `Tokenizer.TokenizeFinalKeyword` | index/util.go:45-46 | a keyword ending the input goes through the final callback and takes the boost a previous keyword set |
| `QueryTerms.IsAlphaNumericNotOnlyDigit` | util.go:19-41 | the loop accepts exactly the strings of digits, lower-case letters and `_` that are not all digits and whose second byte is not `x` |
| `QueryTerms.Cut` | util.go:49-53 | the result is the first min(len, 10) bytes of the text: a prefix of it of exactly that length |
| `QueryTerms.TermOf` | util.go:43-56 | a token yields nothing when rejected after lower-casing, its lower-cased form when accepted and at most 10 bytes, and the first 10 bytes of that form when longer |
| `QueryTerms.Tokenize` | util.go:43-56 | the loop calls back exactly the reference list of filtered, cut terms |
| `QueryTerms.TermsShape` | util.go:43-56 | every term is 1 to 10 allowed bytes and a prefix of some lower-cased token |
| `QueryTerms.TermsAppend` | util.go:43-56 | the filter works token by token: terms of a concatenation are the concatenated terms |
| `QueryTerms.AcceptedIsLower` | util.go:19-41 | an accepted string is unchanged by lower-casing |
| `QueryTerms.SecondByteX` | util.go:21-25 | a string whose second byte is `x` (`0x1f`, `axe`) is rejected |
| `QueryTerms.NotOnlyDigits` | util.go:37-40 | a string of digits only yields no term |
| `QueryTerms.CutAfterFilter` | util.go:48-52 | the filter sees the whole token, so a cut term may be all digits |
| `Queries.Term.constructor` | index/query.go:56-62 | a new term has the given text, no postings, cursor 0 and `NOT_READY` |
| `Queries.Term.Prepare` | index/query.go:42-46 | the term is reset to `NOT_READY` at cursor 0 with the segment's list for its text whenever `bsearch` can find it |
| `Queries.Term.Cost` | index/query.go:48-50 | the cost is the number of entries of the list |
| `Queries.Term.Score` | index/query.go:52-54 | the score is the current entry's 10-bit weight plus 1, between 1 and 1024 |
| `Queries.Term.Move` | index/query.go:93-101 | the cursor becomes `to` and the document is that entry's, or `NO_MORE` past the end |
| `Queries.Term.Next` | index/query.go:103-108 | the first call yields the least document, later calls the least document above the current one |
| `Queries.Term.Advance` | index/query.go:67-91 | an exhausted or already-on-target cursor only takes the target as its document; otherwise the cursor never moves back, and on an ascending list it lands on the least document at or above a target above the current document, and stays on the current document and cursor when that is already above the target |
| `Queries.LeastOrBounds` | index/query.go:183-197 | the minimum over the sub-queries is below each of them and is one of them (or `NO_MORE`) |
| `Queries.MinOfCeils` | index/query.go:167-197 | the least of the sub-queries' next documents is the least document of their union |
| `Queries.Restart` | index/query.go:234-252 | raising the target to a later list's document skips no common document |
| `Queries.Intersected` | index/query.go:234-252 | when all sub-queries agree on a document with no common document skipped, it is the least common document |
| `Queries.PrepareAll` | index/query.go:114-119 | every sub-query is prepared against the segment and the result is sorted by cost, with the same multiset of term texts |
| `Queries.SortByCost` | index/query.go:118-131 | the sort returns the same sub-queries, non-decreasing by cost, with the same multiset of term texts |
| `Queries.AlignAll` | index/query.go:234-252 | the leap-frog loop stops with every sub-query on one document and no common document skipped |
| `Queries.BoolAndQuery.constructor` | index/query.go:204-209 | a new conjunction holds the given terms and is `NOT_READY` |
| `Queries.BoolAndQuery.Prepare` | index/query.go:114-119 | the conjunction's terms are prepared and ordered by cost, keeping their texts as a multiset, with ascending lists on a searchable segment |
| `Queries.LookedUpReady` | index/query.go:42-46 | terms bound to their `Lookup` lists on a searchable segment all walk ascending lists |
| `Queries.BoolAndQuery.Cost` | index/query.go:211-224 | the cost is the least of the sub-query costs, 0 for none |
| `Queries.BoolAndQuery.Score` | index/query.go:226-232 | the score is the sum of the sub-query scores, between n and 1024·n |
| `Queries.ScoreSumOnDoc` | index/query.go:226-232 | when every term rests on document d, the sum of their scores is the sum over their lists of 1 plus d's weight |
| `Queries.BoolAndQuery.NextAndedDoc` | index/query.go:234-252 | the result is the least document, from the start target on, that is in every list |
| `Queries.BoolAndQuery.Next` | index/query.go:263-270 | yields the least document in every list after the current one, or `NO_MORE` |
| `Queries.BoolAndQuery.Advance` | index/query.go:254-261 | yields the least document in every list at or above the target |
| `Queries.UnionNext` | index/query.go:183-197 | steps the sub-queries on the current document and yields the least document of the union above it |
| `Queries.UnionAdvance` | index/query.go:167-181 | advances every sub-query and yields the least document of the union at or above the target |
| `Queries.BoolOrQuery.constructor` | index/query.go:142-147 | a new disjunction holds the given terms and is `NOT_READY` |
| `Queries.BoolOrQuery.Prepare` | index/query.go:114-119 | the disjunction's terms are prepared and ordered by cost |
| `Queries.BoolOrQuery.Cost` | index/query.go:149-155 | the cost is the sum of the sub-query costs with 32-bit wrap-around |
| `Queries.BoolOrQuery.Score` | index/query.go:157-165 | the score sums the sub-queries on the current document and is positive exactly when one of them is on it |
| `Queries.BoolOrQuery.Next` | index/query.go:183-197 | yields the least document of the union after the current one; right after a re-prepare it yields `NOT_READY` |
| `Queries.BoolOrQuery.Advance` | index/query.go:167-181 | yields the least document of the union at or above the target |
| `Indexing.CompositeId` | index/index.go:58 | the id built from `int32(i)<<24` and `doc` is `i·2^24 + doc` for segments below 128 and negative for 128 to 255 |
| `Indexing.TermMatches` | index/index.go:53-61 | the documents of one term's list are exactly those whose segment stores the term for them |
| `Indexing.IntersectionOfTerms` | index/index.go:53-61 | the documents in all lists are exactly those matching every query term |
| `Indexing.ScoreOfBounds` | index/query.go:52-54 | a document's score over n terms lies between n and 1024·n |
| `Indexing.ListScoreOfLookups` | index/query.go:42-54 | scoring over the lists the terms look up equals scoring over the terms |
| `Indexing.ScoreOfConcat` | index/query.go:226-232 | the score over two term lists back to back is the sum of their scores |
| `Indexing.ScoreOfPerm` | index/query.go:226-232 | the score does not depend on the order of the terms, so sorting by cost keeps it |
| `Indexing.ReportedScored` | index/index.go:54-60 | reports scored over the looked-up lists are scored over the query's terms |
| `Indexing.ScoredPerm` | index/index.go:54-60 | reports scored over some order of the terms are scored over any other order |
| `Indexing.RunTerm` | index/index.go:54-60 | on one segment a term query reports, in increasing order, exactly the matching documents, each with score 1 plus the document's stored weight for the term |
| `Indexing.RunConjunction` | index/index.go:54-60 | on one segment a conjunction reports, in increasing order, exactly the documents matching all its terms, each with the sum over its terms of 1 plus the stored weight |
| `Indexing.RunQuery` | index/index.go:54-60 | on one segment any query reports exactly its matching documents in increasing order, each scored as the sum over the query's terms of 1 plus the stored weight |
| `Indexing.Index.constructor` | index/index.go:33-51 | the index holds the loaded segments in order |
| `Indexing.Index.ExecuteQuery` | index/index.go:53-61 | every reported hit is a matching document under its composite id, scored as the sum over the query's terms of 1 plus that document's stored weight (sound); every match is reported (complete), segment by segment in increasing document order |
| `Indexing.Index.FetchForward` | index/index.go:63-73 | a negative id finds nothing; otherwise the id's segment and 24-bit ordinal are read from the forward array |
| `Indexing.Index.FetchHit` | index/index.go:58-73 | a composite id of a segment below 128 reads back that segment's forward entry |
| `Indexing.Index.FetchHighSegment` | index/index.go:58-68 | composite ids of segments 128 to 255 are negative and find nothing |
| `Indexing.Index.FetchPastEnd` | index/index.go:63-73 | ids of the segment one past the last pass the guard and panic |
| `Indexing.Index.Stats` | index/index.go:75-84 | the totals are the sums of the forward and dictionary counts of all segments |
| `Indexing.PlaceholdersCounted` | segment.go:139 | the 100 placeholder paths are flushed too, so every segment counts 100 more files |
| `Indexing.PlaceholdersRead` | segment.go:139 | forward ids below 100 read an empty path; id 100 + k reads the k-th added path |
| `Weighting.SplitPath` | index/index.go:133 | the directory and the name concatenate to the path, the name has no `/`, and the directory is empty or ends in `/` |
| `Weighting.Ext` | index/index.go:137 | the extension is the suffix from the last dot of the name, empty when there is none |
| `Weighting.TrimExt` | index/index.go:138 | the name without extension followed by the extension is the name |
| `Weighting.SplitJoin` | index/index.go:134 | joining the pieces of a split with `/` gives the text back |
| `Weighting.EdgeWeights` | index/index.go:107-117 | the whole name gets the full weight; names of 2 bytes or fewer get no edges |
| `Weighting.Uniq.constructor` | index/index.go:98 | the counts start empty |
| `Weighting.Uniq.Inc` | index/index.go:99-106 | adds n to the text's count, creating it; an empty text changes nothing |
| `Weighting.Uniq.Edge` | index/index.go:107-117 | adds `max/(len-i)` (Go division) to each left prefix of length 3 and more |
| `Weighting.Uniq.AddContent` | index/index.go:127-131 | tokens longer than 2 bytes add `1 + 10·boost` each |
| `Weighting.Uniq.AddPieces` | index/index.go:134-136 | every non-empty directory piece adds `FILEPATH_WEIGHT` |
| `Weighting.PartsOf` | index/index.go:133-138 | a path splits into directory pieces that rejoin to its directory, and a name that is the base plus the extension |
| `Weighting.Accumulate` | index/index.go:127-140 | the per-file counts grow by the file's weight for each of its terms, and its terms become keys |
| `Weighting.FileWeightsOf` | index/index.go:127-140 | weighing a file on an empty map yields exactly its reference weights |
| `Weighting.WeightsNonNegative` | index/index.go:127-140 | no term's weight is negative when no token is negatively boosted |
| `Weighting.Clamp` | index/index.go:146-148 | weights above 1024 become 1024; others are kept |
| `Weighting.PackRoundTrip` | index/index.go:149 | for a weight below 1024, the entry built from `id<<10` and the weight gives back the id and the weight |
| `Weighting.PackClamped` | index/index.go:146-149 | a clamped weight of 1024 leaves weight 0 and sets the id's lowest bit |
| `Weighting.PackedAscending` | index/index.go:149 | entries of increasing ids with weights below 1024 form an ascending list |
| `Weighting.ClampedEntryCollides` | index/index.go:146-149 | a clamped entry for id 100 followed by id 101 breaks the ascending order |
| `Weighting.Post` | index/index.go:145-150 | every term gets exactly one entry appended, its id and clamped weight; the other segment state is kept |
| `Weighting.Weigh` | index/index.go:127-140 | the counts built for a file are its reference weights, all non-negative |
| `Weighting.AddFile` | index/index.go:142-156 | the path gets the next forward id, each term's entry is appended, the counts are emptied and the postings file is untouched |
| `Weighting.IndexFile` | index/index.go:121-156 | indexing one file's content and path appends the path and one entry per weighted term, and leaves the postings file untouched |
| `Search.FirstBelow` | main.go:107-108 | the insertion point is the first hit scoring below the new one |
| `Search.PlacedFacts` | main.go:106-113 | inserting keeps the hits descending and adds exactly the new hit |
| `Search.Offered` | main.go:98-115 | below 100 hits the list grows by one; at 100 a hit no better than the last is dropped |
| `Search.OfferedDescending` | main.go:98-115 | `add` keeps the hits in descending score order |
| `Search.OfferedContents` | main.go:98-115 | `add` adds exactly the new hit below the cap, and swaps it for the last hit at the cap when it scores higher |
| `Search.RankedFacts` | main.go:98-121 | the reference ranking is a descending permutation of everything reported |
| `Search.RankedStable` | main.go:107-110 | among equal scores the ranking keeps the report order |
| `Search.KeptIsTop` | main.go:96-121 | the kept hits are the first 100 of the stable descending ranking of all reports |
| `Search.ShiftInto` | main.go:109-110 | shifting the tail right by one and storing at i is an insertion at i |
| `Search.TopHits.constructor` | main.go:96-117 | no hits and a total of 0 |
| `Search.TopHits.Add` | main.go:98-115 | the hits become the offered list; the total is kept |
| `Search.TopHits.Insert` | main.go:106-113 | the in-place shift places the hit at the first lower score, dropping the last hit when the list does not grow |
| `Search.TopHits.Report` | main.go:118-121 | the total grows by one and the hit is offered |
| `Search.BuildQuery` | main.go:85-94 | one term gives a term query; otherwise a conjunction over all terms |
| `Search.NoTermsNoHits` | main.go:89-94 | a query without terms reports nothing |
| `Search.Collect` | main.go:117-121 | the total is the number of reports and the hits are the top 100 of them |
| `Search.Resolve` | main.go:123-125 | each kept hit is resolved by `FetchForward` of its id |
| `Search.Run` | main.go:85-121 | the reports are sound, with each score the sum over the terms of 1 plus the stored weight, and complete for the query's terms; no terms means no reports |
| `Search.Search` | main.go:78-135 | the response holds the top 100 of the sound and complete reports (each scored as the sum over the terms of 1 plus the stored weight), their paths, the total and the index totals |
| `Legacy.NewIndex` | index.go:27-35 | the index gets 20 empty shards |
| `Legacy.FetchForward` | index.go:161-171 | a shard out of range or an ordinal past its documents finds nothing; the shard equal to the count panics; otherwise the path |
| `Legacy.FetchComposite` | index.go:156-170 | the composite id of a shard below 128 and one of its documents finds that document |
| `Legacy.FetchPastLastShard` | index.go:164 | ids of the shard one past the last pass the guard and panic |
| `Legacy.Stats` | index.go:173-181 | the totals are the documents and the postings lists of all shards |
| `Legacy.ExecuteQuery` | index.go:151-159 | one callback per match, shard by shard, with the path, the composite id and the score |
| `Legacy.CallsFetchBack` | index.go:151-171 | with at most 128 shards, looking up a reported id yields the reported path |
| `Legacy.CallsCount` | index.go:151-159 | every match is reported exactly once |
| `Legacy.Adder` | index.go:37-99 | the per-file entries are the packed clamped weights of its content terms, lower-cased directory pieces, name edges and extension; the map is emptied |
| `Legacy.WeighAndPack` | index.go:60-99 | weighing on an empty map and packing gives the file's entries and empties the map |
| `Legacy.PackAll` | index.go:88-93 | each term is packed with its weight clamped to 1024 |
| `Legacy.PiecesLower` | index.go:77 | the pieces of a lower-cased directory are lower-case |
| `Legacy.AdderTermsLower` | index.go:70-83 | every term the adder weighs is lower-case, except the extension, which is not lower-cased |

## Left out

- File and network I/O is not modelled: reading files, `mmap`, `filepath.Glob`, the HTTP handlers, JSON, HTML, `took` timing and logging. File contents and paths are parameters, and a memory-mapped file is its byte sequence.
- Concurrency is not modelled: the segment mutex, the channel worker loops of `tokenizeAndAdd`/`adder`, `DoIndex`/`doIndex` with its directory walk and `ONLY` extension filter, and the random shard choice of `adder`. The shard and the forward id are inputs.
- `Close`/`close` and `NewMMaped` are not modelled; they only release or open files.
- Text scanning by `text/scanner` is not modelled. `QueryTerms` and `Legacy` take the scanner's tokens as a sequence of byte strings.
- Bytes are scanned one at a time; UTF-8 runes are not decoded. `ToLower` folds ASCII letters only.
- The root package's `Query` types, `addForward`, `addInverted`, `flushToDisk` and `loadFromDisk` of the legacy index, and the protobuf `StoredSegment` are not part of this model. A legacy shard is its documents and its postings lists.
- `zearch.io/update.go` is not part of this model.
- Legacy.ExecuteQuery: takes what the query yields on each shard as input instead of running the root package's queries.
- Legacy.Adder: the extension text is packed as `filepath.Ext(name)[1:]`, not lower-cased, and it requires a name with a dot, because `ext[1:]` panics without one.
- Weighting.IndexFile: requires a name with a dot, because `ext[1:]` panics on an empty extension.
- Weighting.AddFile: requires a non-empty extension and no negative boost, for the same reason.
- Queries.Term.Advance: on an exhausted term (`NO_MORE`) it returns the target without moving; the model states this but does not claim the result is a document of the list.
- Queries.BoolOrQuery.Advance: is specified only for targets beyond the current document, which is how `advance` is reached; `BoolOrQuery` is not built by `ExecuteQuery` or the search handler.
- Queries.BoolAndQuery.Advance: is specified only for a fresh query or a target beyond the settled current document.
- Indexing.Index.ExecuteQuery: requires every segment to be searchable: a sorted, consistent dictionary of at most 2^28 terms whose postings lists are strictly ascending. `flushToDisk` gives that only when every in-memory list is ascending (`Segments.FlushSearchable`). A clamped weight of 1024 can break the order (`Weighting.ClampedEntryCollides`), and so can forward ids of 2^22 or more, which wrap in `id<<10`. On such segments soundness, completeness and order are not stated.
- Indexing.RunTerm: carries the same searchable-segment requirement as `Indexing.Index.ExecuteQuery`, for the same reason; a segment with a non-ascending list is not covered.
- Indexing.RunConjunction: carries the same searchable-segment requirement; a segment with a non-ascending list is not covered.
- Indexing.RunQuery: carries the same searchable-segment requirement; a segment with a non-ascending list is not covered.
- Stored.StoredStringArray.Write: requires every item to be shorter than 2^32 bytes. Go would write a longer item with its length truncated to 32 bits; that case is not modelled. The loop is the static method `Stream`, which builds the bytes that `write` sends to each file.
- Stored.StoredStringArray.Bsearch: a miss is stated to mean absence only for arrays of at most 2^28 records. Beyond that, `uint32(mid*16)` wraps and a probe reads record `mid mod 2^28`, so a present item can be missed. A hit is stated for every size.
- Segments.Segment.FindPostingsList: agrees with `Lookup` only on dictionaries of at most 2^28 records, because `bsearch` wraps beyond that.
- Segments.FlushSearchable: covers only flushes of at most 2^28 terms, the most that `bsearch` reaches.
- Segments.Segment.FlushToDisk: requires every term, path and encoded list to be shorter than 2^32 bytes, for the same reason.
- Indexing.Index.FetchForward: the read of the segment equal to the count is the `Panic` result, not a crash.
- Search.Search: the elapsed time is not part of the response, and the paths are `ReadResult`s rather than strings with the not-found case dropped.
- Search.Search: requires every segment to be searchable, as `Indexing.Index.ExecuteQuery` does; segments with a list put out of order by a clamped weight or a wrapped id are not covered.
- Search.Run: carries the same searchable-segment requirement, with the same gap.
- Search.TopHits.Insert: the insertion loop of `add` is its own method; `Add` calls it.
