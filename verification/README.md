# SearchPlusPlus, modelled and verified

SearchPlusPlus is a small full-text search engine.  Documents are analysed into
tokens and indexed in memory; a refresh seals the in-memory segment into files
and lists it in a manifest; a log makes documents durable before that; queries
are run over the sealed segments by a tree of iterators, scored with BM25 and
cut off by a bounded heap; an HTTP server with a worker pool answers requests.

This project states what these parts promise and proves it with Dafny:

* `Base`, `VarByte`, `LittleEndian`, `PostingFormat`, `TokenWeight`: the byte
  encodings.
* `Analyzer`, `Documents`, `MutableSegment`: analysis and the in-memory index,
  against a scan of the documents.
* `SegmentFormat`, `SegmentWriter`, `SegmentReader`, `SegmentRoundTrip`,
  `SealedSegments`, `SegmentSizes`: the segment files, written and read back.
* `DocSets`, `LeafIterators`, `Iterators`, `Queries`, `QueryPlan`, `EndToEnd`:
  the iterator tree against the meaning of the query.
* `Scoring`, `FirstPassExact`, `TopK`, `IndexStatistics`, `Searcher`: scoring
  and selection.
* `Translog`, `LogRecords`, `Manifest`, `IndexWriter`, `CrashSafety`,
  `TornRecords`: durability and publication over every run with crashes.
* `Json`, `JsonParser`, `JsonRoundTrip`, `QueryParser`, `QueryRoundTrip`: two
  pairs of printer and parser.
* `JsonGrammar`, `JsonSoundness`, `QueryForms`: the two languages, as grammars
  that do not mention the parsers.
* `HttpParser`, `HttpRequests`, `HttpConnection`, `AcceptQueue`, `SearchSlots`:
  request framing and the two concurrent protocols.

Code that changes state is a class or a method, proved against a specification
function; the lemmas are about those functions.  A byte string is a Dafny string
with one character per byte.  Integer widths are explicit.  Scores and weights
are exact reals; floats that are only stored are 32-bit patterns.  Concurrent
code is a step system: a run is any sequence of enabled steps.  `dafny verify
dfyconfig.toml` checks everything.

Some promises fail for inputs that the code does accept.  Each of these comes
with the exact condition under which the promise holds, and with an instance in
which it fails:

* parsing a printed query, `QueryRoundTrip.RoundTrip`: an operand with the field
  `OR`, `QueryRoundTrip.LateOrFails`;
* independence of the way in which a stream is cut into reads,
  `HttpConnection.CutsDoNotMatter`: a head that straddles the limit,
  `HttpConnection.Straddling`;
* bringing a document back from its log record, `LogRecords.RecordBack`: a field
  named like the identifier, `LogRecords.FieldNamedId`;
* keeping what is added after a crash, `TornRecords.TornExactly`: a torn record
  in the log, `CrashSafety.TornRun`;
* the idf of every leaf, `IndexStatistics.TableExactly`: a colon in a field name,
  `IndexStatistics.KeysCollide`;
* the frequencies of the first pass, `FirstPassExact.FirstPassExactly`: fields
  with positions or weights, `FirstPassExact.TermMissed`;
* reading strings back, `SegmentRoundTrip.StringLimit`: 4 GiB and more,
  `SegmentRoundTrip.LongString`.

The documentation calls `CurrentReader` lock-free (include/spp/index/index_writer.h:62-63);
the code takes the writer's mutex (src/index/index_writer.cpp:260-263).  Here it
is a read of the published list.  It also says that closing refreshes pending
documents (include/spp/index/index_writer.h:59-60); the code leaves them in the
log (src/index/index_writer.cpp:243-253), and so does this model.

## Model

| member | source | states |
|---|---|---|
| `EndToEnd.FindDocuments` | src/query/searcher.cpp:70-139 | for every list of documents whose files the format can hold and every query: adding, sealing, reopening, building and draining gives, strictly ascending and without gaps, exactly the accepted documents that satisfy the query when it is decided document by document |
| `EndToEnd.ModestIsSizable` | src/index/segment_writer.cpp:37-202 | a bound that a caller can check: with every document below 64 MiB and every field name below 4 GiB, all lengths and file sizes fit the format, however many documents there are |
| `SegmentSizes.ModestFits` | src/index/segment_writer.cpp:37-202 | the same for any content that represents the documents |
| `SegmentSizes.MassesWithin` | src/index/segment_writer.cpp:88-118 | the postings of all terms of a field are no more than its tokens, and the terms no longer than its text |
| `SegmentSizes.BlobSize` | src/index/mutable_segment.cpp:51-71 | the stored object is at most six times as long as the document, and 26 bytes |
| `EndToEnd.IndexAll` | src/index/mutable_segment.cpp:43-127 | offering documents in turn indexes exactly those with an identifier, while ids last, in order |
| `EndToEnd.Query` | src/query/searcher.cpp:70-139 | the same for any reader that stands for the documents |
| `Queries.AnswerMatches` | src/query/searcher.cpp:70-139 | the set that the iterator tree denotes is the set of documents that satisfy the query: a term needs a token and all tokens, an empty conjunction or disjunction matches nothing |
| `Queries.TermMeans` | src/query/searcher.cpp:78-118 | without reference to tokens: a term of a text field is satisfied if and only if its text has a word and every word of it is a word of the text of the document, words being maximal runs of letters and digits up to case and without the stop words; a term of a keyword field, if and only if it is not empty and the document has exactly that text; a term of an unknown field, never |
| `Queries.CaseDoesNotMatterToMatching` | src/query/searcher.cpp:70-139 | the case of ASCII letters in text fields, of the query or of the document, does not change whether a document satisfies a query |
| `Queries.ListStandsFor` | src/index/segment_writer.cpp:97-105 | a posting list denotes the documents that have the term, each with its frequency, and always has a byte form |
| `Queries.MeetOne` | src/query/searcher.cpp:115-117 | one operand alone denotes what a conjunction or a disjunction of it would, so returning it directly is right |
| `QueryPlan.Build` | src/query/searcher.cpp:70-139 | the tree has the required shape, has not moved, shares nothing, and denotes the answer to the query with its frequencies |
| `QueryPlan.BuildTerm` | src/query/searcher.cpp:78-118 | missing field, no token and missing token give the empty set; otherwise the meet of the posting lists |
| `QueryPlan.BuildAll` | src/query/searcher.cpp:120-136 | one tree per operand, with footprints apart from each other |
| `QueryPlan.TokenIterators` | src/query/searcher.cpp:99-114 | None exactly when some token has no document; otherwise one iterator per token |
| `QueryPlan.MakeTerm` | src/query/searcher.cpp:112-113 | the iterator over the bytes found for a term denotes the documents that have the term |
| `Iterators.Iter.Next` | include/spp/query/iterators.h:17-40 | for every tree: the least document above the current one, or the least one of all if the iterator has not moved; asked for only in these two states |
| `Iterators.Iter.Advance` | include/spp/query/iterators.h:17-40 | in every state: an element at or above the target with none skipped from both target and position on; the least one at or above the target when the position is at or below it |
| `Iterators.Drain` | src/query/searcher.cpp:208-255 | calling Next until the end lists the denoted set, ascending, and terminates |
| `Iterators.ConjunctionIterator.constructor` | src/query/iterators.cpp:106-120 | denotes the intersection with 32-bit frequency sums; children sorted by cost; a child without documents leaves the others unprimed and the whole at its start with nothing to find |
| `Iterators.ConjunctionIterator.Next` | src/query/iterators.cpp:122-168 | the least common document above the current one; the leapfrogging terminates |
| `Iterators.ConjunctionIterator.Advance` | src/query/iterators.cpp:170-202 | no common document from both target and position on is skipped |
| `Iterators.ConjunctionIterator.Prime` | src/query/iterators.cpp:113-119 | after the early return no child has passed a common document |
| `Iterators.ConjunctionIterator.Leapfrog` | src/query/iterators.cpp:139-167 | the candidate only grows and stops at the least common document |
| `Iterators.DisjunctionIterator.constructor` | src/query/iterators.cpp:212-213 | denotes the union with 32-bit frequency sums |
| `Iterators.DisjunctionIterator.Next` | src/query/iterators.cpp:252-292 | the least document above the current one in any child |
| `Iterators.DisjunctionIterator.Advance` | src/query/iterators.cpp:294-319 | the first document from the larger of target and position on; before the first Next there is none |
| `Iterators.DisjunctionIterator.MoveAfter` | src/query/iterators.cpp:215-227 | moving the children at or before a document puts each on its first document after it |
| `Iterators.SumFreqs` | src/query/iterators.cpp:245-248 | the frequency of a document is the 32-bit sum over the children that hold it |
| `Iterators.CheapestFirst` | src/query/iterators.cpp:109-112 | sorting by cost permutes the children and changes neither the set nor any state |
| `LeafIterators.TermIterator.constructor` | src/query/iterators.cpp:18-38 | on any bytes: reads the announced count, which overrides the dictionary; recognises well-formed lists |
| `LeafIterators.TermIterator.Next` | src/query/iterators.cpp:40-91 | on any bytes, read with any layout, the new state is the specified one; on a well-formed list that is the next entry with its frequency, position and weight |
| `LeafIterators.TermIterator.Advance` | src/query/iterators.cpp:93-102 | on any bytes the new state is the specified one; on a well-formed list that is the first entry from the target on, unless the iterator stands there already |
| `LeafIterators.LookUp` | src/query/iterators.cpp:93-102 | on the bytes of a list, read with its own layout, advancing to a document finds its entry, or another document if it has none |
| `LeafIterators.ListDecodes` | src/index/segment_writer.cpp:42-62 | the offsets at which the entries of an encoded list are decoded one after the other |
| `LeafIterators.MatchAllIterator.Next` | src/query/iterators.cpp:330-346 | every document in order; after the last one a further call wraps to document 0 |
| `LeafIterators.MatchAllIterator.Advance` | src/query/iterators.cpp:348-356 | the target itself if there is such a document, also backwards |
| `DocSets.MeetPermuted` | src/query/iterators.cpp:109-112 | intersection and frequency sums do not depend on the order of the operands |
| `TopK.HeapIsBest` | src/query/searcher.cpp:147-157 | at every threshold the heap has as many scores as the stream has, up to n: it holds the n best as a multiset |
| `TopK.DroppedNoBetter` | src/query/searcher.cpp:246-251 | the heap has min(n, total) entries, all from the stream, and no dropped entry beats a kept one |
| `TopK.OfferExactly` | src/query/searcher.cpp:147-157 | a full heap gives up the least entry by score and, among equal scores, by segment and document, and only for a better score |
| `TopK.Order` | src/query/searcher.cpp:313-322 | the hits are the sorted candidates cut at size: non-increasing, and none that is cut beats one that stays |
| `Searcher.Search` | src/query/searcher.cpp:160-347 | total_hits is the number of matches of all segments; every match has the score that the tables of the program give, which is BM25 with the document frequencies and average lengths of a scan when no keys clash and no field of the query stores a payload; the pool of the second pass is the best of the matches; with a ranker, of whatever kind, every candidate has the score that it gives the features of the document; the hits are the best min(size, total_hits) candidates, non-increasing, each with the identifier and stored fields of its document; without a ranker, or with BM25 on plain unboosted fields, they are the best of the matches |
| `Searcher.OnceEachMatch` | src/query/searcher.cpp:215-237 | a match that has every leaf once or not at all scores the sum of the idf of those it has, whatever k1 and b |
| `Searcher.PoolSize` | src/query/searcher.cpp:204-209 | without ranker and feature collection the pool is as large as the result; otherwise the larger of size and rerank_top_n |
| `Searcher.RankingMeans` | src/query/searcher.cpp:260-310 | unless keys clash, the new scores come from the features with the statistics of a scan |
| `Searcher.ScoresMean` | src/query/searcher.cpp:170-237 | scores taken from the tables are those of a scan unless keys clash, and BM25 sums unless a field stores a payload |
| `Searcher.Walk` | src/query/searcher.cpp:208-255 | every match of every segment is scored once and offered to the heap, in order |
| `Searcher.WalkSegment` | src/query/searcher.cpp:211-254 | one segment: exactly its matching documents are seen, ascending |
| `Searcher.MatchListed` | src/query/searcher.cpp:208-255 | every matching document of every segment is in the walk |
| `Searcher.MatchesAscend` | src/query/searcher.cpp:208-255 | no match comes twice: the walk is strictly ascending by segment and document |
| `Searcher.Rerank` | src/query/searcher.cpp:268-310 | the score that the ranker gives the features of the document, the quality of the document included; with BM25 that is the score of the first pass when no field of the query stores a payload or is boosted |
| `Searcher.Hydrate` | src/query/searcher.cpp:328-342 | parsing the stored fields of a hit finds the identifier of its document |
| `Searcher.BestAfterCut` | src/query/searcher.cpp:256-322 | the best of a pool that is the best of the matches are the best of the matches, when the pool is no smaller than the result |
| `Searcher.CutIsBest` | src/query/searcher.cpp:313-322 | cutting the ordered candidates at a size keeps the best of them |
| `IndexStatistics.GlobalDf` | src/query/searcher.cpp:175-183 | the document frequency summed over the segments is the number of documents of the index that have the term |
| `IndexStatistics.IdfTable` | src/query/searcher.cpp:170-185 | the table keeps, under each key, the idf of the first leaf with that key, from the frequencies of a scan |
| `IndexStatistics.TableExactly` | src/query/searcher.cpp:170-185 | for every query, schema and idf that tells absent from present terms: every leaf gets the idf of its own term over every index, if and only if no two different leaves, one at least in a field of the schema, have the same key |
| `IndexStatistics.NoClashIsRight` | src/query/searcher.cpp:170-185 | without such a clash the table is right, over every index and for every idf |
| `IndexStatistics.ClashIsWrong` | src/query/searcher.cpp:170-185 | with one, an index of a single document in which a leaf gets a wrong idf |
| `IndexStatistics.NoColonNoClash` | src/query/searcher.cpp:171-171 | queries without a colon in a field name have no clash |
| `IndexStatistics.TotalDocCount` | include/spp/index/index_reader.h:32-37 | the number of documents of all segments, as a 32-bit number |
| `IndexStatistics.Averages` | src/query/searcher.cpp:187-202 | for every field the number of its tokens over the number of documents that have it, both by a scan of all documents and as 64-bit numbers |
| `IndexStatistics.AverageTimes` | src/query/searcher.cpp:187-202 | the average length of a field times the number of documents that have it is the number of its tokens; 0 for a field that no document has |
| `IndexStatistics.RarerLeafCountsMore` | src/query/bm25_scorer.cpp:7-13 | with the idf of the program, over any increasing logarithm: of two leaves the one that fewer documents have weighs more, and every leaf of a document weighs something |
| `IndexStatistics.ReadStatistics` | src/query/searcher.cpp:165-202 | the tables of a search say of every leaf what the specification says |
| `IndexStatistics.KeyDistinguishes` | src/query/searcher.cpp:171-171 | keys of leaves are distinct when the field names have no colon |
| `IndexStatistics.KeysCollide` | src/query/searcher.cpp:171-171 | an index in which it happens: fields a:b and a, a document with c in the first, and the leaf b:c of the second gets the idf of c |
| `Scoring.ScoreGrows` | src/query/bm25_scorer.cpp:15-23 | for positive idf and b in [0, 1], every length and average: with a positive normalisation the score is strictly increasing in tf and stays below idf * (k1 + 1); with a normalisation of 0 the first occurrence reaches that limit |
| `Scoring.NormIsZero` | src/query/bm25_scorer.cpp:20-22 | the normalisation is 0 exactly for k1 = 0, or b = 1 and an empty field of positive average |
| `Scoring.AverageLengthScore` | src/query/bm25_scorer.cpp:15-23 | in a field of average length one occurrence scores the idf itself, and the score times (tf + k1) is idf * tf * (k1 + 1) |
| `Scoring.HalfOfTheLimit` | src/query/bm25_scorer.cpp:15-23 | as many occurrences as the normalisation score half of idf * (k1 + 1) |
| `Scoring.NormIsAffine` | src/query/bm25_scorer.cpp:20-22 | the normalisation is k1 at the average length, k1 * (1 - b) at length 0, affine in the length, and k1 for every length when the average is 0 |
| `Scoring.OnceEach` | src/query/searcher.cpp:215-237 | a document that has every leaf once or not at all gets the sum of the idf of those it has |
| `Scoring.IdfArgumentIs` | src/query/bm25_scorer.cpp:7-13 | the idf is the logarithm of (total + 1) / (df + 1/2): above 1 for every possible df, and 2 for a term that half of the documents have |
| `Scoring.RarerCountsMore` | src/query/bm25_scorer.cpp:7-13 | the idf strictly falls with the document frequency, is positive, and is 0 in an empty index |
| `Scoring.TermHasLeaves` | src/query/searcher.cpp:41-67 | the leaves of a term name its field and one token each, and a document satisfies the term exactly when it has them all and there are any |
| `Scoring.LeavesInOrder` | src/query/searcher.cpp:41-67 | operands have their leaves one after the other, under either operator |
| `Scoring.CollectLeaves` | src/query/searcher.cpp:41-67 | appends the analysed leaves of the query in order, duplicates included |
| `Scoring.StageOne` | src/query/searcher.cpp:215-237 | for every layout: the sum over the leaves of what reading their lists without payload gives |
| `Scoring.PlainScore` | src/query/searcher.cpp:215-237 | for fields without payload that is the sum over the leaves that the document has |
| `FirstPassExact.FirstPassExactly` | src/query/searcher.cpp:228-231 | the first pass takes the right frequency of every term in every document of every segment, if and only if the field stores neither positions nor weights, or is not in the schema |
| `FirstPassExact.TermMissed` | src/query/searcher.cpp:228-231 | an instance for every field with a payload: two documents with the term x, and the first pass misses it in the second |
| `FirstPassExact.PayloadMisread` | src/query/iterators.cpp:40-91 | the bytes of that list, read without payload, have no document 1 |
| `Scoring.StageOneLeaf` | src/query/searcher.cpp:217-231 | for every layout: the frequency that the bytes of the list, read without payload, give for the document |
| `Scoring.OwnLayout` | src/query/searcher.cpp:284-299 | read with the layout of the field, the list gives the posting of the document, or nothing if the document does not have the term |
| `Scoring.BuildItem` | src/query/searcher.cpp:278-306 | for every layout: whether the document has the term, its frequency, first position and dequantised weight |
| `Scoring.BuildContext` | src/query/searcher.cpp:267-308 | one item per leaf, right for every layout |
| `Scoring.PassesAgree` | src/query/features.cpp:95-98 | with boosts equal to 1 the sum of the first pass equals the bm25_total of the second, duplicates included |
| `Scoring.ExtractFeatures` | src/query/features.cpp:63-156 | the vector is the one that IsFeatures describes: sums, per-field sums, ratio, quality, and the extremes of idf, weight and normalised position, each attained by a matching leaf or 0 |
| `Scoring.FeaturesUnique` | src/query/features.cpp:63-156 | and that leaves no entry open |
| `Scoring.OneLeafFeatures` | src/query/features.cpp:84-150 | the vector of a single leaf, entry by entry |
| `Scoring.FeaturesAdd` | src/query/features.cpp:84-150 | the entries that are sums add up over the leaves |
| `Scoring.BoostScales` | src/query/features.cpp:95-97 | a boost multiplies the score of a leaf, and 1 leaves it alone |
| `Scoring.PositionFeatures` | src/query/features.cpp:110-124 | the normalised position times the field length is the position, and the decay is exp of minus decay times position over length; both 0 where the field has no length or no decay |
| `Scoring.FieldsAddUp` | src/query/features.cpp:101-103 | the per-field parts add up to the total when all matches are in the first four fields |
| `MutableSegments.MutableSegment.AddDocument` | src/index/mutable_segment.cpp:43-127 | the new id is the number of documents before; lists, statistics, blobs, ids and qualities are what a scan of the documents gives; a refused document changes nothing |
| `MutableSegments.AddToField` | src/index/mutable_segment.cpp:73-117 | one field after one more document is what the scan of all documents gives |
| `MutableSegments.TallyTokens` | src/index/mutable_segment.cpp:87-103 | a tally for exactly the terms that occur |
| `MutableSegments.AddPostings` | src/index/mutable_segment.cpp:105-115 | one posting appended to exactly the lists of the counted terms, whatever the order |
| `MutableSegments.ListedHasTerm` | src/index/mutable_segment.cpp:106-114 | a listed document has the term, and its posting is computed from that document alone |
| `MutableSegments.TermIsListed` | src/index/mutable_segment.cpp:106-114 | a document whose field produces the term is listed |
| `MutableSegments.ListAscends` | src/index/mutable_segment.cpp:106-114 | ids strictly ascend: one entry per term and document |
| `MutableSegments.TallyMeans` | src/index/mutable_segment.cpp:91-97 | tf is the number of occurrences and the position the least ordinal cut off at 65535, for fields of fewer than 2^32 tokens |
| `MutableSegments.WeightIsMax` | src/index/mutable_segment.cpp:98-102 | the weight is the largest of the occurrences, or 0 when all are negative |
| `MutableSegments.SumFieldLength` | src/index/mutable_segment.cpp:116-116 | the field length is the sum of all frequencies, in whatever order the terms are listed |
| `MutableSegments.ListIsValid` | src/index/segment_writer.cpp:48-60 | every list of a segment fits the posting format |
| `MutableSegments.StoredMembers` | src/index/mutable_segment.cpp:51-71 | the members of the stored object |
| `Documents.StoredHolds` | src/index/mutable_segment.cpp:51-71 | the stored object has the identifier, the stored fields that the document has, and nothing else |
| `Documents.Analyze` | src/index/mutable_segment.cpp:17-22 | the tokens of the analyzer that belongs to the type of the field |
| `Analyzer.Standard` | src/analyze/standard_analyzer.cpp:47-79 | the tokens of the specification |
| `Analyzer.Keyword` | src/analyze/standard_analyzer.cpp:88-98 | the whole input as one token, none for empty input |
| `Analyzer.TokensAreRuns` | src/analyze/standard_analyzer.cpp:47-79 | a token is emitted if and only if it is a maximal alphanumeric run, lower-cased, no stop word, with the number of earlier runs as its position |
| `Analyzer.TokensAreLower` | src/analyze/standard_analyzer.cpp:64-72 | an emitted token has small letters and digits only, and is its span with 32 added to the codes 65 to 90 |
| `Analyzer.CaseDoesNotMatter` | src/analyze/standard_analyzer.cpp:47-79 | texts that differ only in the case of ASCII letters have the same tokens: texts, positions and spans |
| `Analyzer.WordAlone` | src/analyze/standard_analyzer.cpp:18-45 | a word of small letters and digits alone is its own token, unless it is one of eighteen words, which are spelled out |
| `Analyzer.TokensAreWords` | src/analyze/standard_analyzer.cpp:47-79 | the texts of the tokens are exactly the words of the text that are not left out |
| `Analyzer.TokenCharCodes` | src/analyze/standard_analyzer.cpp:14-16 | the characters of a token are those with the codes 48 to 57, 65 to 90 and 97 to 122 |
| `Analyzer.SpansAscend` | src/analyze/standard_analyzer.cpp:71-77 | spans are disjoint and ascend, and so do positions |
| `Analyzer.TokensAreStable` | src/analyze/standard_analyzer.cpp:47-79 | analysing the text of an emitted token gives just that token |
| `Analyzer.NumbersFit` | src/analyze/standard_analyzer.cpp:71-77 | below 4 GiB of text positions and offsets fit 32 bits |
| `SealedSegments.SealAndOpen` | src/index/segment_reader.cpp:61-217 | opening what sealing wrote recovers every statistic, posting, blob and quality, for all segments whose lengths fit the format |
| `SealedSegments.ReaderStandsFor` | src/index/segment_reader.cpp:219-276 | dictionary entries exist exactly for the indexed terms and lead to their posting lists |
| `SealedSegments.OnlySizesMatter` | src/index/segment_writer.cpp:66-202 | every other number of a segment fits its width |
| `SealedSegments.StoredIdentifier` | src/query/searcher.cpp:335-341 | the stored bytes of every document parse to an object that names it |
| `SealedSegments.QualityComesBack` | src/index/segment_reader.cpp:256-260 | the quality of a document comes back as it was given, or as 0.0, if the schema stores it |
| `SegmentFormat.FixedParts` | include/spp/index/segment_info.h:44-56 | where magic numbers, version, counts and fingerprint stand in the files, byte by byte |
| `SegmentWriter.SealSegment` | src/index/segment_writer.cpp:66-202 | the files hold, in byte order, exactly the terms of each field with the lists that a scan of the documents gives; other files are not touched |
| `SegmentWriter.SealTerms` | src/index/segment_writer.cpp:88-118 | dictionary entries and lists of all terms of a field, strictly ascending |
| `SegmentWriter.WritePostings` | src/index/segment_writer.cpp:42-62 | the bytes of a valid posting list |
| `SegmentWriter.SortedTerms` | src/index/segment_writer.cpp:89-95 | the terms strictly ascending, none missing |
| `SegmentWriter.AlreadySorted` | src/index/segment_writer.cpp:100-104 | sorting by document changes no list of a segment |
| `SegmentWriter.StoredFiles` | src/index/segment_writer.cpp:127-136 | the bytes of the stored fields and of their offsets |
| `SegmentWriter.InfoBytes` | src/index/segment_writer.cpp:138-163 | the bytes of the .si file |
| `SegmentWriter.QualityFile` | src/index/segment_writer.cpp:184-195 | the bytes of the .dvq file |
| `SegmentReaders.Open` | src/index/segment_reader.cpp:61-217 | for any files: missing, corrupt, or the reader of the specification with its dictionaries in order |
| `SegmentReaders.SegmentReader.FindTerm` | src/index/segment_reader.cpp:233-244 | an entry with the term if there is one, None only if there is none |
| `SegmentReaders.SegmentReader.GetFieldId` | src/index/segment_reader.cpp:225-231 | the first field of that name, None only if there is none |
| `SegmentReaders.DictionaryInOrder` | src/index/segment_reader.cpp:164-173 | whatever the file holds, the dictionary ends up in order with the entries that were read |
| `SegmentRoundTrip.OpenBack` | src/index/segment_reader.cpp:61-217 | opening the files of a content that fits gives the reader with all its records |
| `SegmentRoundTrip.TermLookUp` | src/index/segment_reader.cpp:246-254 | the entry of a record has its statistics, and its range holds its posting bytes |
| `SegmentRoundTrip.DocumentLookUp` | src/index/segment_reader.cpp:256-276 | every blob and every quality comes back |
| `SegmentRoundTrip.StringLimit` | src/index/segment_writer.cpp:37-40 | a string is read back if and only if it is shorter than 2^32 bytes |
| `SegmentRoundTrip.LongString` | src/index/segment_writer.cpp:37-40 | a string of 2^32 bytes is read back as the empty one |
| `PostingFormat.EntriesSnoc` | src/index/segment_writer.cpp:48-60 | appending an entry appends its bytes, counted from the previous document |
| `TokenWeight.QuantizationError` | include/spp/index/segment_info.h:58-67 | a stored weight is within half a step of the clamped weight |
| `TokenWeight.CodesAreFixed` | include/spp/index/segment_info.h:58-67 | quantising the weight of a code gives the code |
| `TokenWeight.Monotone` | include/spp/index/segment_info.h:58-64 | quantisation is monotone |
| `VarByte.Encode` | src/store/varbyte.cpp:5-19 | appends the encoding |
| `VarByte.GroupAt` | src/store/varbyte.cpp:5-19 | byte k carries the digit of weight 128^k, with the high bit set unless it is the last, and there are no more bytes than digits |
| `VarByte.Decode` | src/store/varbyte.cpp:21-49 | for any bytes: the value put together from the groups, truncated to the width, or a corrupt input |
| `VarByte.Length` | include/spp/store/varbyte.h:21-28 | the length of the encoding |
| `VarByte.RoundTrip` | src/store/varbyte.cpp:5-49 | decoding an encoding followed by any bytes returns the value and stops at the boundary |
| `VarByte.ProperPrefixFails` | src/store/varbyte.cpp:21-49 | no proper prefix of an encoding decodes |
| `VarByte.LengthLimits` | include/spp/store/varbyte.h:21-28 | at most five bytes for 32 bits and ten for 64 |
| `VarByte.PrefixFree` | src/store/varbyte.cpp:5-19 | no encoding starts with another |
| `LittleEndian.Append` | src/index/segment_writer.cpp:18-36 | appends the bytes of a word |
| `LittleEndian.ByteAt` | src/index/segment_writer.cpp:18-36 | byte k of a word is the digit of weight 256^k |
| `LittleEndian.Read` | src/index/segment_reader.cpp:18-37 | the value of a word, None when the bytes run out |
| `LittleEndian.ValueOfWord` | src/index/segment_reader.cpp:18-37 | reading a word gives the value it was made from |
| `JsonRoundTrip.RoundTrip` | src/json/json_serializer.cpp:139-149 | parsing the compact text, and the pretty text for every indentation, returns the value and consumes the whole text, with the escaping of section 7 of RFC 8259 |
| `JsonRoundTrip.BodyBack` | src/json/json_serializer.cpp:102-137 | every byte string is read back from its escaped form |
| `JsonRoundTrip.IntegerBack` | src/json/json_serializer.cpp:24-39 | every 64-bit integer is read back |
| `JsonSoundness.ParsedExactly` | src/json/json_parser.cpp:17-27 | the parser accepts a text, and as a value, if and only if the grammar of RFC 8259 has it as a text of that value, with white space anywhere between tokens and the last value of a repeated key |
| `JsonSoundness.NumbersExactly` | src/json/json_parser.cpp:106-165 | the texts of numbers are exactly those of the grammar: no leading zeros, digits on both sides of a point, a signed exponent |
| `JsonSoundness.FormMeansOne` | src/json/json_parser.cpp:72-90 | a text of the grammar has one value |
| `JsonGrammar.GrammarIsParsed` | src/json/json_parser.cpp:17-27 | every text of the grammar is parsed to its end, as what it stands for |
| `JsonGrammar.Utf8Decodes` | src/json/json_parser.cpp:236-247 | for every code point below 2^16, the bytes decode to it by a decoder that asks for lead byte, continuation bytes and shortest form |
| `JsonGrammar.Utf8Unique` | src/json/json_parser.cpp:236-247 | and no other bytes do |
| `JsonGrammar.CodeSpelled` | src/json/json_parser.cpp:219-235 | four hexadecimal digits in either case, each named by its position among the sixteen, are read as the code point that they spell |
| `JsonGrammar.BadDigit` | src/json/json_parser.cpp:219-235 | a character that is none of them ends the parse |
| `JsonGrammar.PieceBack` | src/json/json_parser.cpp:175-257 | a written character of a string, as itself, as a short escape or as a code, is read as what it stands for |
| `JsonGrammar.NumeralBack` | src/json/json_parser.cpp:106-165 | every number of the grammar, fractions and exponents included, is read to its end; a whole number that fits 64 bits is that integer |
| `JsonGrammar.LastIsKept` | src/json/json_parser.cpp:282-310 | of a repeated key the last value is kept |
| `Json.Serialize` | src/json/json_serializer.cpp:139-149 | the text of the value |
| `Json.Write` | src/json/json_serializer.cpp:41-97 | appends the text of a value at a depth |
| `Json.EscapeStringInto` | src/json/json_serializer.cpp:102-137 | appends the escaped string |
| `JsonParser.Parse` | src/json/json_parser.cpp:318-321 | for every input the value or the error with its position; terminates |
| `JsonParser.Parser.ParseValue` | src/json/json_parser.cpp:72-90 | one value from the current position |
| `JsonParser.Parser.ParseNumber` | src/json/json_parser.cpp:106-165 | the grammar of numbers; integers beyond 64 bits become doubles |
| `JsonParser.Parser.ParseStringInto` | src/json/json_parser.cpp:175-257 | one string with its escapes |
| `JsonParser.Parser.ParseItems` | src/json/json_parser.cpp:259-280 | the items of an array |
| `JsonParser.Parser.ParseObject` | src/json/json_parser.cpp:282-310 | the members of an object, a repeated key keeping its last value |
| `QueryRoundTrip.RoundTrip` | src/query/query_ast.cpp:36-56 | for queries of non-empty identifiers and any default field, parsing the printed query gives it back if and only if every node has two children at least, nothing matches all, and no conjunction has a later operand with the field OR |
| `QueryRoundTrip.LateOrFails` | src/query/query_parser.cpp:91-153 | (x:a AND OR:b), the text of a query, is not parsed |
| `QueryRoundTrip.OrShaped` | src/query/query_parser.cpp:69-113 | whatever is parsed has nodes of two children at least |
| `QueryRoundTrip.AtomBack` | src/query/query_parser.cpp:123-153 | a printed query is read as one atom, or fails where a later operand starts with OR |
| `QueryForms.FormsAreParsed` | src/query/query_parser.cpp:21-153 | whatever is written with words, quoted texts, fields, parentheses, AND written or left out, OR and white space is parsed to what it means, for every default field |
| `QueryForms.WordAlone` | src/query/query_parser.cpp:123-153 | a bare word, or a quoted text, is the term with the default field and that text |
| `QueryForms.SideBySide` | src/query/query_parser.cpp:91-113 | words side by side are words joined by AND |
| `QueryForms.AndBeforeOr` | src/query/query_parser.cpp:69-113 | AND, written or left out, binds tighter than OR |
| `QueryForms.OrInParentheses` | src/query/query_parser.cpp:115-135 | parentheses turn that round |
| `QueryForms.BlankMatchesAll` | src/query/query_parser.cpp:21-29 | a blank input matches everything |
| `QueryParser.ToString` | src/query/query_ast.cpp:36-56 | the printed form |
| `QueryParser.Parse` | src/query/query_parser.cpp:183-186 | for every input the query or the error with its position; terminates |
| `QueryParser.Parser.ParseAndHere` | src/query/query_parser.cpp:91-113 | operands up to the end, a parenthesis or OR, with the position put back |
| `QueryParser.Parser.ParseOrHere` | src/query/query_parser.cpp:69-89 | operands separated by OR |
| `QueryParser.Parser.ReadIdentOrQuoted` | src/query/query_parser.cpp:155-174 | an identifier or a quoted string |
| `CrashSafety.NothingLost` | src/index/index_writer.cpp:155-241 | over every run of opening, adding, refreshing, closing and crashing between any two durable writes, with the log left at record boundaries: manifest segments and replayed log hold each document exactly as often as it was gained |
| `CrashSafety.AddedOnce` | src/index/index_writer.cpp:171-241 | a document accepted once is there exactly 1 + the number of crashes that hit between manifest rename and log truncation while it was logged |
| `CrashSafety.OpenedHolds` | src/index/index_writer.cpp:105-169 | what opening finds is all there is; it fails exactly when the log holds more documents than a segment can take |
| `TornRecords.TornExactly` | src/index/translog.cpp:41-61 | after a crash in the middle of adding a document, with the index open again: whatever is added, refreshed, crashed and reopened from then on, all that the writer accepted can be recovered, if and only if none or all of the record reached the disk, or the segment cannot take another document anyway |
| `TornRecords.TornLoses` | src/index/translog.cpp:41-61 | otherwise one more document that is accepted is lost |
| `TornRecords.FullRecovers` | src/index/index_writer.cpp:155-241 | a full segment is recovered whatever bytes follow its records |
| `CrashSafety.TornRun` | src/index/translog.cpp:41-61 | a concrete run in which an acknowledged document is lost behind a torn record |
| `CrashSafety.ListedSegmentsStay` | src/index/index_writer.cpp:184-241 | over every run, crashes and reopenings included, listed segments keep their place and their files are never written again |
| `CrashSafety.PublishedGrows` | src/index/index_writer.cpp:255-262 | while a writer stays open, each published segment list is a prefix of every later one |
| `CrashSafety.StepKeepsOrder` | src/index/index_writer.cpp:203-241 | the generation rises by one exactly when a segment is added to the manifest, and never on an empty refresh |
| `CrashSafety.NextIsNew` | src/index/index_writer.cpp:189-191 | the name of a new segment is not in the manifest |
| `IndexWriters.StemsDiffer` | src/index/index_writer.cpp:25-30 | stems of different generations or counters differ |
| `IndexWriters.StemShape` | src/index/index_writer.cpp:25-30 | the name has 35 characters: the generation in 20 digits and the counter in 10, in this order, as long as they have that few |
| `IndexWriters.IndexWriter.AddDocument` | src/index/index_writer.cpp:171-182 | the record is in the log before the document is pending; refused documents are logged all the same |
| `IndexWriters.IndexWriter.Refresh` | src/index/index_writer.cpp:184-241 | seal, rename, truncate, publish; an empty refresh writes nothing |
| `IndexWriters.IndexWriter.Shut` | src/index/index_writer.cpp:243-253 | closing seals nothing: pending documents stay in the log |
| `IndexWriters.OpenWriter` | src/index/index_writer.cpp:91-169 | the manifest and the replayed log, corrupt records skipped |
| `Translogs.PrefixLaw` | src/index/translog.cpp:63-88 | replaying any prefix of the log returns exactly the records whose frames fit completely, in order |
| `Translogs.TornLaw` | src/index/translog.cpp:41-88 | whatever whole records are appended behind the first k bytes of a record, a replay gives exactly the whole records, if and only if k is 0 |
| `Translogs.TornPayload` | src/index/translog.cpp:74-84 | behind a torn payload the first record read takes the missing bytes from the records appended later |
| `Translogs.TornHeader` | src/index/translog.cpp:74-84 | behind a torn header a short record is not read |
| `Translogs.HeaderOnly` | src/index/translog.cpp:74-84 | a header that announces more bytes than follow hides all of them |
| `Translogs.Translog.Append` | src/index/translog.cpp:51-61 | appends one frame |
| `Translogs.Translog.ReplayRecords` | src/index/translog.cpp:63-88 | the records of any bytes |
| `LogRecords.RecordBack` | src/index/index_writer.cpp:53-83 | a record is read back as the document if and only if the document has an identifier, no field named like it, no weights and no quality |
| `LogRecords.FieldNamedId` | src/index/index_writer.cpp:53-83 | a document with a field named like the identifier comes back under another name and without the field |
| `LogRecords.DocToJson` | src/index/index_writer.cpp:53-59 | the JSON of the identifier and the fields, whatever the order of the fields |
| `LogRecords.DocFromJson` | src/index/index_writer.cpp:62-83 | the identifier and the text fields of a record |
| `Manifests.SavedIsLoaded` | src/index/manifest.cpp:13-71 | before the rename the old manifest is loaded, after it the new one, for all 64-bit generations |
| `Manifests.LoadManifest` | src/index/manifest.cpp:13-48 | the manifest of any file, none being the empty one |
| `Manifests.SaveManifest` | src/index/manifest.cpp:50-71 | the directory after the temporary file is written and after it is renamed |
| `HttpConnection.CutsDoNotMatter` | src/http/http_server.cpp:130-162 | for all options: however the stream is cut into reads of at most 8192 bytes, the answer is the same, if and only if no read can jump over the limit that is hit first to where something else is answered; and then the answer is known |
| `HttpConnection.DecidedAnswer` | src/http/http_server.cpp:130-162 | what a decided stream is answered, for all options |
| `HttpConnection.RoomyDecided` | src/http/http_server.cpp:130-162 | for options whose total allows for every head and body, the default among them: exactly the streams without a head, with a head within the limit, or with one so far beyond it that no read can jump over the check |
| `HttpConnection.DefaultDecided` | include/spp/http/http_parser.h:11-15 | with the default options: no head, a head of at most 40960 bytes with three of its blank line, or one of more than 49152 with all four |
| `HttpConnection.Straddling` | src/http/http_server.cpp:130-162 | a request that is received in one piece and refused in two |
| `HttpConnection.WithinIsVerdict` | src/http/http_server.cpp:136-162 | for all options: when head and body are within all limits the answer is that of a single look at the whole stream |
| `HttpConnection.TwoAnswers` | src/http/http_server.cpp:136-162 | every other stream gets two different answers, one of them a refusal |
| `HttpConnection.HandleClient` | src/http/http_server.cpp:130-174 | the socket is answered at most once, as the read loop decides, and closed exactly once |
| `HttpParser.MoreBytes` | src/http/http_parser.cpp:62-153 | a complete result stays complete with the same request and length on every extension of the buffer, and so does an error after the head |
| `HttpParser.TryParseRequest` | src/http/http_parser.cpp:62-153 | the framing of section 6.3 of RFC 9112 for a Content-Length or none: request, more bytes needed, or the error to answer with |
| `HttpRequests.Answers` | src/http/http_parser.cpp:62-153 | stated from the parts of a written head, for every one of them and whatever follows: when exactly the answer is 414, 505, 400, 413 or 411, when more bytes are needed, and otherwise the request with its parts, the body of the announced length, and the bytes consumed |
| `HttpRequests.RequestBack` | src/http/http_parser.cpp:62-153 | writing a request with a Content-Length and parsing it, for every body within the limit and whatever follows: that request comes back, path and query split at the first question mark, headers under small letters, with that body and nothing beyond it consumed |
| `HttpRequests.TooLongLine` | src/http/http_parser.cpp:63-80 | for every buffer, 414 exactly when there is a whole head whose first line break comes after the limit |
| `HttpRequests.LineBack` | src/http/http_parser.cpp:81-101 | verb, target, version, path and query of a written request line |
| `HttpRequests.CollectedHolds` | src/http/http_parser.cpp:103-126 | of headers with the same name up to case the last value is kept |
| `HttpRequests.EndOfHead` | src/http/http_parser.cpp:63-71 | the blank line of a written head is found where it was written |
| `HttpParser.FindCrlf` | src/http/http_parser.cpp:36-46 | the first line break from a position on |
| `AcceptQueue.StepKeeps` | src/http/http_server.cpp:48-116 | every step of acceptor, workers and stopper keeps the invariant: bounded queue, exclusive mutex, no lost wake-up, stopping in order, every socket in one place |
| `AcceptQueue.AllClosedOnce` | src/http/http_server.cpp:48-116 | when the server has stopped every accepted socket has been closed exactly once: handled, refused or drained |
| `AcceptQueue.ClosedAtMostOnce` | src/http/http_server.cpp:48-116 | no socket is ever closed twice |
| `AcceptQueue.NobodyIsForgotten` | src/http/http_server.cpp:60-116 | in every reachable state the queue holds at most 1024 sockets, and while one is queued and a worker waits, some worker is awake or the acceptor is about to notify: also while the server stops |
| `AcceptQueue.RefusedExactly` | src/http/http_server.cpp:85-99 | in every reachable state a socket is refused if and only if 1024 are queued, and otherwise queued |
| `AcceptQueue.OldestFirst` | src/http/http_server.cpp:100-116 | in every reachable state a worker takes, of the queued sockets, the one that was accepted first |
| `AcceptQueue.StopEnds` | src/http/http_server.cpp:60-72 | after the notification no worker waits, some worker can move until all have exited, and every move brings the end nearer |
| `SearchSlots.Limits` | src/server/search_server.cpp:354-378 | under every interleaving permits plus holders equal the cap, searches in flight never exceed holders, and the peak never exceeds the cap |
| `SearchSlots.PeakIsBest` | src/server/search_server.cpp:359-365 | once all constructors are done the peak is the largest value that any of them obtained, despite stale reads and spurious failures |
| `SearchSlots.StepKeeps` | src/server/search_server.cpp:354-378 | every step keeps the invariant, and the peak never falls |
| `SearchSlots.CounterIsPositive` | src/server/search_server.cpp:367-370 | the counter of a search that runs is never below one |
| `SearchSlots.AcquireExactly` | src/server/search_server.cpp:354-358 | in every reachable state a waiting search gets a permit if and only if fewer than the cap are held |
| `SearchSlots.NoDeadlock` | src/server/search_server.cpp:354-378 | with a cap above 0, as long as a search is not over some search can move, and not only by a compare-and-swap that fails without cause |

## Left out

- SealedSegments.SealAndOpen: stated when the lengths of terms, names and blobs are below 2^32 and file sizes below 2^64; the program writes lengths in those widths without a check (SegmentRoundTrip.LongString shows what happens beyond)
- EndToEnd.FindDocuments: the same bound, which EndToEnd.ModestIsSizable derives from the sizes of the documents; the program accepts larger documents, whose lengths it then writes modulo 2^32
- Analyzer.Standard: token positions and offsets are unbounded here, the program stores them in 32 bits; by Analyzer.NumbersFit that makes no difference below 4 GiB of text in one field
- Searcher.Search: a bound of 0 on the heap is excluded, because the program then reads the top of an empty heap; query strings and the vectors returned for collect_features are not modelled
- Scoring.ExtractFeatures: exact reals instead of floats; std::exp and std::log are parameters
- IndexWriters.IndexWriter.AddDocument: raw JSON supplied by the caller is not modelled, only the record that the writer derives from the document
- CrashSafety.NothingLost: a sealed segment is represented by its documents, which SealedSegments.SealAndOpen justifies; every durable write succeeds or the process crashes, so error returns in the middle of a refresh are not modelled; crashes that tear a record are treated by TornRecords.TornExactly, one at a time
- LogRecords.RecordBack: weights and qualities of documents are not in the log
- JsonRoundTrip.RoundTrip: doubles are kept as the text they were read from and are not written back as numbers; surrogate pairs are not combined, as in the program
- Json.Serialize: a double is written as the text it was read from, the program prints its numeric value
- Json.Write: the same
- JsonParser.Parser.ParseNumber: the numeric value of a double is not modelled
- IndexWriters.OpenWriter: reading the schema file is not modelled, and the manifest and the segments are records here; Manifests.SavedIsLoaded and SealedSegments.SealAndOpen treat their bytes
- SegmentReaders.Open: sums of corrupt 64-bit offsets are not wrapped, corrupt dictionaries with repeated terms keep their order, and the texts of corruption messages are dropped
- TokenWeight.QuantizationError: exact reals; NaN and infinite weights are not modelled
- Iterators.Iter.Next: trees over posting bytes that are not well formed are not covered; the leaf iterator alone is total on any bytes
- AcceptQueue.StepKeeps: starting the threads, the listening socket and the sending of responses are not modelled; Stop is called once
- Sockets, platform calls, fsync and file handles: a directory is a map from names to bytes, renaming is atomic
- Approximate memory accounting, logging, status texts, path parameters, URL decoding, the router and the JSON handlers of the server
- Schema JSON, the linear ranker and the CatBoost stub: straight-line code
- Merges, deletions, block-max skipping, phrase queries and write locks, which the design documents mention and the code does not have
