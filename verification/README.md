# Formal model of the CloudDFIR evidence platform

This project models, in Dafny, the parts of an eDiscovery platform on which its evidential
claims rest, and proves what those parts promise: that a search finds what the query says and
never leaves the caller's tenant, that hash chains and Merkle roots bind what they cover, that
staged evidence is never lost or changed on its way to its content-addressed key, that stalled
work always comes to an end, that productions keep families together and name every unsafe
item, and that bounded execution stays within its bounds.

`dafny verify dfyconfig.toml` checks everything.

## How the model is laid out

* **Search** (`Search*.dfy`). `SearchFields` is the field registry and the index mapping,
  `SearchAst` the query trees, `SearchDocument` the stored document and the engine's own leaf
  predicates (analysis, phrases, globs, fuzzy keywords and date comparison stay uninterpreted),
  `SearchCompile` the compiler and what the compiled bool/nested/term/range clauses match.
  `SearchMeaning` says, without the DSL, what a validated query means; `SearchCorrectness`
  shows the compiler keeps it. `SearchLexer`, `SearchParser`, `SearchPrinter` and
  `SearchRoundTrip` are the simple language with its print/parse round trip; `SearchAdvanced`
  and `SearchSentences` the advanced language; `SearchBuilder` the visual builder;
  `SearchValidate` and `SearchPipeline` the validator and the whole path from text to DSL.
  Parsers and the validator are classes whose methods advance a cursor or record violations;
  each is proved against a recursive specification about which the theorems are stated.
* **Integrity** (`Merkle`, `Canonical`, `Audit`, `AuditAppend`). SHA-256 is an arbitrary
  function of the right output length. Binding theorems therefore end in "or here are two
  different inputs with the same digest"; no injectivity is assumed. `AuditAppend` interleaves
  the lock, the read of the head and the insert of every transaction, read committed or on a
  snapshot, with the unique index on tenant and sequence.
* **Evidence store** (`Store`, `StoreProtocol`). Keys carry the fields their path segments
  spell out. `Store` is the code run alone, `StoreProtocol` every interleaving of promoters
  that may fail or crash between any two provider calls.
* **Recovery** (`StalledItems`, `Sweeper`, `Recovery`, `RecoveryKeys`, `TerminalFailure`,
  `DedupKeys`). One tenant's rows are tables addressed by position; a sweeper pass is one
  transaction. Dedup keys are structured values; the attempts
  of a page walk are counted by the text of the keys, as the program counts them (`DedupKeys`).
* **Bounded execution** (`Chunked`, `Engine`). Lanes sharing a cursor as a transition system,
  and the recursive archive walk.
* **Production** (`ProductionSort`, `ProductionValidate`, `Csv`, `Bates`, `Layout`).
* `Wrappers`, `Text`, `Sequences` and `Sorting` hold what the others share.

OpenSearch is taken to behave as its documentation says: an empty bool matches everything, a
nested entry is a document of its own that is invisible at the root (so `exists` on the nested
path itself, asked at the root, matches nothing), and a normalizer folds stored and queried
keywords alike.

## What the proofs found

* `bates:*` is accepted and compiled, and never matches (`SearchCorrectness.BatesExistsNeverMatches`).
* `kind`, `path`, `folder`, `provider`, `case`, `messageid`, `threadid`, `actorip` and
  `audittarget` are mapped without a normalizer, but queries on them are lowercased: a stored
  value with a capital cannot be found by a term (`CapitalHides`, `RawTermLost`).
* An edit distance on an address or Bates field is dropped (`FuzzyDropped`); OCR wildcards and
  `exists` look at the whole-document text only (`OcrPagesMissed`). `FaithfulExactly` says
  these are all the leaves the compiler translates differently.
* Promotion compares sizes, not bytes: a digest that is not that of the staged bytes is
  accepted (`Store.WrongDigestIsAccepted`), and a later honest upload of that digest and size then
  loses its bytes (`Store.WrongDigestLosesLater`). All guarantees of the protocol hold for the
  digest staging returned.
* `verifyAuditChain` with page size 0 accepts any chain, with a count of 0.
* The unique index on tenant and sequence keeps the audit chain in order even where a serializable
  transaction, as in `productions.service.ts:1260`, reads a stale head; such a transaction then
  fails, exactly when an audit event was committed since it began
  (`AuditAppend.OnlyStaleSnapshotsRefused`).
* Requeues whose stage, attempt and evidence row agree get one key, and all but one are dropped
  (`RecoveryKeys.SameKeyExactly`, `PassWritesExactly`). The collectors create an evidence row for
  each item, or name the item after the container it claims, so no run from a ledger they wrote loses a requeue (`RunLosesNone`).
* Page recoveries are counted by key text, so the page jobs of a folder with "recover" in its key
  count as attempts, and so do the recoveries of a scope that extends another after a colon: such
  a scope is given up early (`DedupKeys.FolderNameCounts`), never late (`Recovery.PriorExactly`).
* Between two attempts of an item fifteen minutes pass; between two of a page walk or a parse
  only a sweep (`Recovery.OnlyItemsRest`).
* Giving up on an item adds an exception row but not a failure count; a failure recorded by
  evidence id adds neither (`TerminalFailure.EvidenceFailureIsSilent`); a failed chat fetch is
  not recorded at all (`FetchTargetIsTheItem`). A `processed` item is not protected
  (`ProcessedIsFailed`).
* Giving up on a container's item sets its evidence to `exception` whatever its status was
  (`Recovery.ContainerBecomesException`).
* The walk down a production's parent links does not end without a finding from an item on a cycle
  of them, and does from every other item (`ProductionValidate.WalkEndsExactly`); the walk up always
  ends.
* A carriage return is accepted as CSV delimiter, and no file written with it can be read back
  (`Csv.ReadsBackExactly`).
* The comment on `queryInChunks` says rows come back in completion order; the code returns
  them in batch order, and that is what is proved.
* A Merkle root binds a list only against lists of its own length (and the empty list against those
  of two and more): any other two lengths have lists with one root
  (`Merkle.OtherLengthsDoNotBind`), among them no file at all and one empty file
  (`Merkle.RootIsALeaf`).

## Model

| member | source | states |
|---|---|---|
| SearchFields.DefaultRegistryOk | packages/search/src/fields.ts:34-105 | every entry of the field table has the type its index path is mapped with |
| SearchFields.ResolvedFieldOk | packages/search/src/fields.ts:107-145 | a resolved field of a sound registry is sound, header names included |
| SearchCorrectness.CompileNodeKeepsMeaning | packages/search/src/compile.ts:260-298 | for every validated tree of faithful leaves and every document, the DSL matches exactly when the tree's meaning holds |
| SearchCorrectness.WrapperFilters | packages/search/src/compile.ts:300-330 | the authorization wrapper matches exactly when the query does and tenant, case, import and privilege rules all pass |
| SearchCorrectness.CompileKeepsMeaning | packages/search/src/compile.ts:332-334 | compiled and wrapped, a faithful query matches exactly the visible documents that satisfy it |
| SearchCorrectness.NoQueryEscapesAuthorization | packages/search/src/compile.ts:300-334 | faithful or not, no compiled query reaches a document outside the caller's tenant, cases, imports or privilege, and an empty case list matches nothing |
| SearchCorrectness.FaithfulExactly | packages/search/src/compile.ts:101-258 | a leaf is translated differently for some document exactly when it is one of the listed kinds |
| SearchCorrectness.UnfaithfulLeafDiffers | packages/search/src/compile.ts:101-258 | for each such leaf, a document on which DSL and meaning differ |
| SearchCorrectness.BatesExistsNeverMatches | packages/search/src/compile.ts:238-258 | `exists` on the Bates field matches no document |
| SearchCorrectness.CapitalHides | packages/search/src/compile.ts:101-152 | on a keyword stored as written, a value with a capital is not found by its own text |
| SearchCorrectness.RawKeywordTerm | packages/search/src/compile.ts:101-152 | such a term finds exactly the values equal to the lowercased query |
| SearchCorrectness.FuzzyDropped | packages/search/src/compile.ts:101-152 | a document that only a fuzzy match would find is missed on address and Bates fields |
| SearchCorrectness.OcrPagesMissed | packages/search/src/compile.ts:191-258 | OCR wildcards and `exists` miss text found only on pages |
| SearchCorrectness.EmptyOrMatchesEverything | packages/search/src/compile.ts:260-298 | an OR of no children, which no front end builds, would match every document |
| SearchLexer.ReadNumber | packages/search/src/lexer.ts:33-42 | reads the longest run of digits and its value |
| SearchLexer.ReadPhraseText | packages/search/src/lexer.ts:102-140 | unescapes up to the closing quote, or says there is none |
| SearchLexer.Tokenize | packages/search/src/lexer.ts:44-219 | the cursor loop produces the token list of the recursive scanner, or its first error position |
| SearchParser.Parser.ReadOr | packages/search/src/parser.ts:96-104 | consumes exactly one disjunction of the grammar and returns its tree, or the position of the error |
| SearchParser.Parser.ReadAnd | packages/search/src/parser.ts:106-130 | the same for conjunctions, written AND or by adjacency |
| SearchParser.Parser.ReadNot | packages/search/src/parser.ts:132-139 | the same for negations |
| SearchParser.Parser.ReadPrimary | packages/search/src/parser.ts:141-174 | the same for groups, fielded values, phrases and words |
| SearchParser.Parser.ReadBracketRange | packages/search/src/parser.ts:200-218 | the same for inclusive bracket ranges |
| SearchParser.Parser.ReadComparison | packages/search/src/parser.ts:220-234 | the same for one-sided ranges |
| SearchParser.ParseQuery | packages/search/src/parser.ts:84-94 | tokenizing and parsing the whole input gives the specified tree or error |
| SearchPrinter.PrintLexes | packages/search/src/lexer.ts:44-219 | a printed tree is scanned, character by character, into exactly its lexemes, whatever boundary follows |
| SearchRoundTrip.ParsePrinted | packages/search/src/parser.ts:84-270 | parsing what was printed gives back every tree the simple language can express |
| SearchRoundTrip.AcceptedTextIsReadable | packages/search/src/parser.ts:84-270 | every accepted text is blank or parses to a tree of the described form; printing it and parsing again gives it back, unless it is one of three forms the printer leaves out |
| SearchRoundTrip.ExpressibleExactly | packages/search/src/parser.ts:84-270 | the trees of the round trip are those of the described form without a time in a field name, a keyword as range value or `field=*` |
| SearchRoundTrip.AdjacencyIsAnd | packages/search/src/parser.ts:106-130 | writing AND or nothing between operands gives the same tree |
| SearchRoundTrip.BlankMatchesAll | packages/search/src/parser.ts:84-94 | blank input is the query that matches everything |
| SearchRoundTrip.ParseTextWide | packages/search/src/parser.ts:96-130 | every group the parser builds has at least two operands |
| SearchBuilder.BuilderSays | packages/search/src/parser.ts:359-443 | a complete builder query becomes a tree meaning what the builder says: groups, one-child groups, negated groups, case-free field names |
| SearchBuilder.ConvertsExactly | packages/search/src/parser.ts:359-443 | conversion throws exactly when some condition lacks what its operator needs |
| SearchBuilder.BuilderSearchFindsWhatItSays | packages/search/src/parser.ts:432-455 | validated and compiled, it finds exactly the visible documents it describes |
| SearchValidate.Validator.Walk | packages/search/src/validate.ts:152-194 | the walk returns the specified node, records the specified violations in order and counts the leaves reached |
| SearchValidate.Validator.ValidateTerm | packages/search/src/validate.ts:196-261 | one term: its typed value, or the violation recorded |
| SearchValidate.Validator.ValidateRange | packages/search/src/validate.ts:317-376 | one range: its typed bounds, or the violations recorded |
| SearchValidate.Validator.Validate | packages/search/src/validate.ts:118-132 | a validated tree exactly when no violation was recorded |
| SearchValidate.NullHasReason | packages/search/src/validate.ts:134-194 | a node is dropped only together with a recorded violation |
| SearchPipeline.AcceptsExactly | packages/search/src/validate.ts:118-376 | a tree is accepted exactly when it meets the declared depth, count, field, wildcard, fuzzy, phrase and range rules |
| SearchPipeline.WalkKeepsMeaning | packages/search/src/validate.ts:152-376 | an accepted tree's output means what the input says, a date term becoming a one-day range included |
| SearchPipeline.SearchFindsWhatIsWritten | packages/search/src/compile.ts:260-334 | validate then compile: matches exactly the visible documents satisfying the query as written |
| SearchPipeline.TextSearchFindsWhatIsWritten | packages/search/src/parser.ts:300-302 | the same from query text |
| SearchPipeline.NoTextEscapesAuthorization | packages/search/src/compile.ts:300-334 | no text, valid or odd, reaches a document its caller may not see |
| SearchAdvanced.ATokenize | packages/search/src/advanced.ts:76-160 | the second tokenizer's loop produces the specified tokens or error |
| SearchAdvanced.AdvancedParser.ReadCondition | packages/search/src/advanced.ts:375-466 | one condition: parameter, operator and values, or the error position |
| SearchAdvanced.AdvancedParser.ReadValueList | packages/search/src/advanced.ts:482-514 | one parenthesized list of values |
| SearchAdvanced.AdvancedParser.ReadOr | packages/search/src/advanced.ts:339-346 | one disjunction of conditions |
| SearchAdvanced.ParseAdvancedQuery | packages/search/src/advanced.ts:326-337 | the whole input, or the first error |
| SearchSentences.SentenceParses | packages/search/src/advanced.ts:326-541 | every sentence, spaced out as text, parses to a tree that means what it says: ANY/ALL/NONE OF, NOT ALL OF, DOES NOT CONTAIN ANY OF lists of any length included |
| SearchSentences.AcceptedTextIsASentence | packages/search/src/advanced.ts:326-541 | every accepted text is blank or parses to the tree of a sentence, in which every operator is of its field's family and no list is empty |
| SearchSentences.TreeSays | packages/search/src/advanced.ts:375-541 | list operators equal their and/or/not expansion |
| SearchSentences.SingletonListIsTheValue | packages/search/src/advanced.ts:538-541 | a list of one value is the plain form |
| SearchSentences.WrongFamilyRefused | packages/search/src/advanced.ts:468-480 | an operator outside its field's family is refused, with the position of the parameter or the operator |
| SearchSentences.AdvancedSearchFindsWhatIsWritten | packages/search/src/advanced.ts:544-549 | advanced text, validated and compiled, finds exactly the visible documents it describes |
| SearchSentences.NoAdvancedTextEscapesAuthorization | packages/search/src/compile.ts:300-334 | no advanced text reaches a document its caller may not see |
| Merkle.PairUp | packages/evidence/src/merkle.ts:39-47 | one turn of the loop pairs neighbours and promotes an odd last node |
| Merkle.MerkleRoot | packages/evidence/src/merkle.ts:24-54 | the level loop returns the recursive tree hash split at the largest power of two, or names the first bad hash |
| Merkle.NextLevelKeepsRoot | packages/evidence/src/merkle.ts:39-49 | pairing neighbours and promoting the odd one leaves the recursive tree hash unchanged |
| Merkle.SplitIsLargestPowerOfTwo | packages/evidence/src/merkle.ts:5-20 | the split point is the largest power of two below the length, as in section 2.1 of RFC 6962 |
| Merkle.RootBinds | packages/evidence/src/merkle.ts:24-54 | lists with the same root are equal, or two inputs with one digest are given, whenever their lengths are equal, or one is empty and the other has two or more |
| Merkle.OtherLengthsDoNotBind | packages/evidence/src/merkle.ts:5-20 | for every other pair of lengths, whatever the hash, two lists of these lengths have one root |
| Merkle.RootIsALeaf | packages/evidence/src/merkle.ts:5-20 | the root of any list, the empty one included, is the root of the one-leaf list that holds it |
| Merkle.SortedMerkleRoot | packages/evidence/src/merkle.ts:60-62 | the root of the sorted list |
| Merkle.SortedInputIsTheMultiset | packages/evidence/src/merkle.ts:56-62 | sorted inputs agree exactly for the same multiset of hashes |
| Canonical.CanonicalExactly | packages/evidence/src/canonical.ts:14-50 | two values have the same text exactly when they have the same normal form |
| Canonical.ObjectsAreFieldSets | packages/evidence/src/canonical.ts:45-49 | two objects have the same normal form exactly when they agree field by field |
| Canonical.KeyOrderFree | packages/evidence/src/canonical.ts:45-49 | writing fields in another order leaves the text unchanged |
| Audit.VerifyAuditChain | packages/database/src/audit.ts:140-210 | for every page size from 1, accepts exactly the linked chains, else reports the first divergent event, why, and how many were checked before it |
| Audit.EventTextExactly | packages/database/src/audit.ts:56-78 | two events have the same hashed text exactly when all thirteen fields agree |
| Audit.LastHashBinds | packages/database/src/audit.ts:72-78 | two verified chains with the same last hash have the same length and events, or a collision is given |
| AuditAppend.Database.AppendAuditEvent | packages/database/src/audit.ts:87-128 | run without interruption: the next number on the chain, linked to its head, or nothing when the payload cannot be hashed or the snapshot is stale |
| AuditAppend.Database.CreateEvent | packages/database/src/audit.ts:101-126 | the insert writes the row hashed from the head read before, or the unique index refuses it |
| AuditAppend.Database.CommitTransaction | packages/database/src/audit.ts:80-86 | a transaction's events become visible together and its locks are released |
| AuditAppend.Database.RollbackTransaction | packages/database/src/audit.ts:80-86 | none of them do |
| AuditAppend.StepKeeps | packages/database/src/audit.ts:87-128 | every lock, head read, insert, commit and rollback, in any interleaving, keeps all chains, committed and pending, in order |
| AuditAppend.OnlyStaleSnapshotsRefused | packages/database/src/audit.ts:92-126 | the unique index refuses no insert of a read-committed transaction, and one of a serializable transaction exactly when an event of the tenant was committed since it began |
| AuditAppend.EveryRunLeavesLinkedChains | packages/database/src/audit.ts:80-210 | after any interleaving each tenant's committed chain is gapless and linked |
| AuditAppend.SameHeadClashes | packages/database/src/audit.ts:91-92 | any two appends that saw the same head take one sequence number: no table with both has the chain in order |
| Store.RequestsTile | packages/evidence/src/store.ts:578-606 | copy ranges are consecutive, inclusive, full but for the last, numbered from 1 and cover every byte |
| Store.CopyFitsLimits | packages/evidence/src/store.ts:150-152 | any size takes at most 10,000 parts; up to 5 TiB no part exceeds 5 GiB |
| Store.EvidenceObjectStore.CopySized | packages/evidence/src/store.ts:544-627 | the destination gets the source's bytes, whole or part by part, or nothing changes |
| Store.EvidenceObjectStore.CopyParts | packages/evidence/src/store.ts:581-608 | the part loop uploads the first `size` bytes and sends exactly the tiling requests |
| Store.EvidenceObjectStore.PromoteToOriginal | packages/evidence/src/store.ts:207-274 | run alone, the answer and the objects left are those of the specified promotion |
| Store.PromoteIdempotent | packages/evidence/src/store.ts:197-206 | a second run answers the same and changes nothing |
| Store.PromotePreserves | packages/evidence/src/store.ts:207-274 | nothing is overwritten, only the named staging object is deleted and only once its destination has the size, failures change nothing |
| Store.HoldsStagedExactly | packages/evidence/src/store.ts:207-274 | the destination holds the staged bytes exactly when it was free or held them before |
| Store.BytesSurviveExactly | packages/evidence/src/store.ts:230-249 | the staged bytes are still stored somewhere exactly when the destination was free or another object held them |
| Store.DigestIsTheCallers | packages/evidence/src/store.ts:207-274 | after any successful promotion the destination hashes to its key exactly when what was there did, or, where nothing was, when the caller's digest is that of the staged bytes |
| Store.WrongDigestIsAccepted | packages/evidence/src/store.ts:207-274 | wherever its key is free, an object is stored under a digest that is not its own |
| Store.WrongDigestLosesLater | packages/evidence/src/store.ts:230-249 | a later honest upload of that digest and size then succeeds and its bytes are gone |
| StoreProtocol.StepKeeps | packages/evidence/src/store.ts:207-274 | every step, failure or crash keeps the invariant, all stored objects, and a stored copy of each deleted upload |
| StoreProtocol.PromotionIsSafe | packages/evidence/src/store.ts:182-274 | after any run stored objects hash to their keys and never change, no upload is lost, finished promotions hold their upload, or two uploads of the run share a digest |
| StoreProtocol.AloneIsPromote | packages/evidence/src/store.ts:207-274 | a promoter left alone ends as the promotion method does |
| StoreProtocol.InterruptedPromotionResumes | packages/evidence/src/store.ts:197-206 | from any reachable state a re-run succeeds exactly when upload or destination exists |
| Sweeper.StalledItemSweeper.RecoverItem | apps/worker/src/stalled-item-sweeper.ts:94-200 | one stalled item: requeued under its next attempt, or failed with container evidence and an exception row |
| Sweeper.StalledItemSweeper.RecoverCheckpoint | apps/worker/src/stalled-item-sweeper.ts:216-273 | one page checkpoint: its attempts counted by key text, it is resumed under the next key or removed with an exception row |
| Sweeper.StalledItemSweeper.RecoverParent | apps/worker/src/stalled-item-sweeper.ts:297-351 | one unparsed email: parsed again, or marked an exception with an exception row |
| Sweeper.StalledItemSweeper.SweepTenant | apps/worker/src/stalled-item-sweeper.ts:64-374 | a whole pass over the selected rows leaves the specified ledger and counts |
| Recovery.PassHandles | apps/worker/src/stalled-item-sweeper.ts:56-371 | every selected row is requeued or given up, with one exception row per give-up; the measure falls by at least the number of rows |
| Recovery.ContainerBecomesException | apps/worker/src/stalled-item-sweeper.ts:110-121 | giving up on a container's item makes its evidence an exception whatever its status was |
| Recovery.RunProgress | apps/worker/src/stalled-items.ts:70-179 | over any run settled items stay, nothing is requeued past the limit, what closes is reported, and at most the first measure of rows is handled |
| Recovery.RecoveryTerminates | apps/worker/src/stalled-item-sweeper.ts:56-371 | after as many rested passes as the first measure, nothing finalize waits for is left, whatever the batches and whatever page jobs are counted as attempts |
| Recovery.OnlyItemsRest | apps/worker/src/stalled-item-sweeper.ts:253-285 | a requeued item waits fifteen minutes, a requeued page checkpoint or unparsed email is stalled still |
| Recovery.PriorExactly | apps/worker/src/stalled-item-sweeper.ts:216-230 | the count by key text is never below the recoveries a page walk has had, and is their number exactly when no stray is in the outbox |
| RecoveryKeys.PassWritesExactly | apps/worker/src/stalled-item-sweeper.ts:143-200 | a pass writes as many new jobs as it counts requeues exactly when no two selected items are requeued under one key and none under a used one; otherwise fewer |
| RecoveryKeys.SameKeyExactly | apps/worker/src/stalled-item-sweeper.ts:147-155 | two requeues share a key exactly when stage, attempt and evidence row (or provider item) agree |
| RecoveryKeys.RunWritesExactly | apps/worker/src/queues.ts:75-109 | over a run, as many new jobs as requeues exactly when no pass loses one |
| RecoveryKeys.RunLosesNone | apps/worker/src/processors/collection-fetch-item.ts:327-447 | no pass of any run loses one, from any ledger in which, as the collectors write it, items in flight share no evidence row and have no key above their attempts |
| DedupKeys.MatchesExactly | apps/worker/src/stalled-item-sweeper.ts:220-226 | a page job's key is counted for a scope exactly when it is a recovery of it, or a stray with the word in its own scope key, or a recovery of a scope extending it |
| DedupKeys.NextKeyIsFresh | apps/worker/src/stalled-item-sweeper.ts:252-270 | strays or not, the next recovery key of a scope was never used, and counts |
| DedupKeys.FolderNameCounts | apps/worker/src/stalled-item-sweeper.ts:220-231 | a scope with the word in its key is given up after its first three page jobs, without a recovery |
| TerminalFailure.StalledIsTerminal | apps/worker/src/terminal-failure.ts:23-37 | a stalled job is terminal whatever its budget, any other once its attempts are spent |
| TerminalFailure.FetchTargetIsTheItem | apps/worker/src/terminal-failure.ts:71-101 | a dead fetch job's target is the item its payload was written for, except for chat |
| TerminalFailure.Handler.RecordTerminalFailure | apps/worker/src/terminal-failure.ts:137-264 | the rows and counter it leaves are the specified ones |
| TerminalFailure.RecordTouches | apps/worker/src/terminal-failure.ts:127-264 | exactly the named item that is not failed, skipped or indexed becomes failed |
| TerminalFailure.ProcessedIsFailed | apps/worker/src/terminal-failure.ts:127-136 | a processed item named by the target becomes failed |
| TerminalFailure.ImportTouches | apps/worker/src/terminal-failure.ts:144-162 | a forensic import becomes failed unless completed, and nothing else changes |
| TerminalFailure.RecordIdempotent | apps/worker/src/terminal-failure.ts:130-136 | a second delivery changes nothing |
| TerminalFailure.CountersTogether | apps/worker/src/terminal-failure.ts:160-264 | failure count and exception rows rise together by one, exactly when a row was hit |
| TerminalFailure.EvidenceFailureIsSilent | apps/worker/src/terminal-failure.ts:214-230 | a failure recorded by evidence id adds neither |
| TerminalFailure.FailedOnce | apps/worker/src/terminal-failure.ts:128-264 | deliveries and sweeper passes in any order: each item that fails gains exactly one exception row, every other none |
| Chunked.ChunkIds | apps/worker/src/chunked.ts:28-34 | chunks concatenate to the input, all full but the last |
| Chunked.ChunksUnique | apps/worker/src/chunked.ts:28-34 | those properties fix the chunks |
| Chunked.SharedPool.TakeNext | apps/worker/src/chunked.ts:70-77 | a lane takes the next index, or returns past the end |
| Chunked.SharedPool.Deliver | apps/worker/src/chunked.ts:70-77 | a batch's rows go to its own slot |
| Chunked.EachBatchOnce | apps/worker/src/object-sweep.ts:72-88 | at any moment of any interleaving the batches started are the first ones, each once, at most as many in flight as lanes |
| Chunked.FinishedInOrder | apps/worker/src/chunked.ts:59-82 | when all lanes have returned, rows are in batch order whatever the completion order |
| Chunked.RunsEnd | apps/worker/src/chunked.ts:70-81 | no interleaving goes on forever |
| Chunked.ChunkedQueryIsTheQuery | apps/worker/src/chunked.ts:48-82 | a query that answers id by id gives the rows it would give for the whole list |
| Engine.SafePathStaysInside | services/crush-parser/app/engine.py:45-50 | an accepted member path never climbs and is accepted unchanged |
| Engine.CopyAndHash | services/crush-parser/app/engine.py:283-294 | size and digest of all that was read, or an error; what was written never exceeds the limit |
| Engine.Analysis.WalkArchive | services/crush-parser/app/engine.py:314-364 | the recursion does to the shared counters and lists what meeting all entries in order does |
| Engine.WalkOutcome | services/crush-parser/app/engine.py:314-364 | completes exactly when everything met fits the entry, byte and ratio limits, then with one artifact and payload per accepted file; bytes written stay within the bound even on failure |
| Engine.PayloadsDistinct | services/crush-parser/app/engine.py:334-358 | payload names and artifact ids are pairwise distinct |
| Engine.DepthBound | services/crush-parser/app/engine.py:359-364 | nothing is met below the depth limit |
| ProductionSort.SortProductionItems | packages/production/src/sort.ts:57-108 | the loops and sorts produce the specified order |
| ProductionSort.SortIsPermutation | packages/production/src/sort.ts:57-108 | in both modes nothing is lost or repeated |
| ProductionSort.FamilyIsABlock | packages/production/src/sort.ts:88-108 | on every selection each family is one block, led by its least non-child when it has one, with nothing of it elsewhere |
| ProductionSort.HeadsInOrder | packages/production/src/sort.ts:106-107 | group heads follow the key order |
| ProductionSort.ItemsInOrder | packages/production/src/sort.ts:65-67 | without grouping, all items do |
| ProductionSort.InputOrderFree | packages/production/src/sort.ts:46-56 | with distinct ids the result is the same for every input order, all six keys, both modes |
| ProductionValidate.DescendantHas | packages/production/src/validate.ts:204-213 | from an item on no cycle, the stack walk finds a property exactly when some item below has it |
| ProductionValidate.WalkEndsExactly | packages/production/src/validate.ts:204-213 | on any selection with unique ids, the walk down ends without a finding exactly when the item is on no cycle of parent links and nothing below has the property |
| ProductionValidate.CycleBelow | packages/production/src/validate.ts:204-213 | a cycle anywhere below an item goes through the item itself |
| ProductionValidate.AncestorHas | packages/production/src/validate.ts:215-226 | the upward walk ends on every selection and finds a property exactly when another item above has it |
| ProductionValidate.WalksAreDual | packages/production/src/validate.ts:204-226 | for any two properties, the walk down finds a pair of items with them exactly when the walk up does |
| ProductionValidate.ValidateProductionSet | packages/production/src/validate.ts:186-315 | one flag per offended code in name order, each naming exactly the offending items in ascending order, transitive redaction, privilege and family splits included |
| ProductionValidate.ReportUnique | packages/production/src/validate.ts:309-315 | there is only one such report |
| Csv.BuildCsvFile | packages/production/src/csv.ts:54-75 | for every accepted delimiter but CR an RFC 4180 decoder returns header and guarded cells, row by row, field by field; with CR it returns nothing, whatever the records |
| Csv.ReadsBackExactly | packages/production/src/csv.ts:24-75 | a file reads back as what was written exactly when its delimiter is not CR |
| Csv.NoFormula | packages/production/src/csv.ts:19-35 | no cell a reader gets from a file starts as a formula, and an apostrophe in front is the only change |
| Bates.FormatsExactly | packages/production/src/bates.ts:9-21 | a number formats exactly when it is positive and below ten to the width |
| Bates.ParseOfFormat | packages/production/src/bates.ts:27-50 | parsing a formatted number gives it back |
| Bates.FormatOfParse | packages/production/src/bates.ts:27-50 | formatting a parsed string gives it back |
| Bates.StringOrderIsNumeric | packages/production/src/bates.ts:9-21 | string order of formatted numbers is numeric order |
| Bates.BatesCounter.NextDocument | packages/production/src/bates.ts:93-104 | one allocation: its range and the counter's new place |
| Bates.AllocationExactly | packages/production/src/bates.ts:88-104 | refused exactly for a bad page count or an overflow, and then nothing is consumed |
| Bates.RangesContiguous | packages/production/src/bates.ts:93-104 | over any run of calls ranges follow one another without gap |
| Bates.RangesDisjoint | packages/production/src/bates.ts:93-104 | no number is handed out twice |
| Layout.FirstFree | packages/production/src/layout.ts:101-108 | the suffix search ends, at the first candidate not taken |
| Layout.NativeFileNameAllocator.PathFor | packages/production/src/layout.ts:86-111 | gives that name, and all names given stay pairwise different ignoring case |
| Layout.CandidateKeepsExtension | packages/production/src/layout.ts:63-67 | a numbered name keeps its extension |

## Left out

- OpenSearch analysis, scoring, highlighting, facets, sorting of hits and `ignore_above`: leaf predicates stay uninterpreted, and the request body around the query is not modelled.
- Date and size literals (`parseDateValue`, `parseSizeValue`) are abstract partial functions; numbers beyond 2^53 and float rounding are not modelled.
- Error wording, and the spelling suggestions of the advanced language.
- Case folding outside ASCII, Unicode white space beyond the common characters, and string order beyond the Basic Multilingual Plane, where code units and characters order differently.
- Property names every JavaScript object inherits (`constructor`, `__proto__`) as field names in the registry lookup.
- The builder's JSON schema: `SearchBuilder` starts from a query that passed it.
- SearchRoundTrip.ParsePrinted: three forms a text can have are not printed: a field name with a time in it, a keyword as range value (writable only with a tilde) and `field=*`; see `SearchRoundTrip.AcceptedTextIsReadable`.
- The audit summary's own passage through a JSON column, and rows appended by others while a verification reads its pages.
- AuditAppend.Database.AppendAuditEvent: taking a lock that is held is not enabled; waiting, timeouts and deadlock are the database's. Transactions are read committed or see the rows committed when they began; the appends of one transaction are awaited one after another.
- Key texts and their validation in `objectKeys.ts`, bucket configuration, presigned URLs, derivatives and manifests; orphaned multipart uploads are not counted.
- StoreProtocol.PromotionIsSafe: for callers that pass the digest and size staging returned; nobody else deletes staged objects.
- Recovery.RecoveryTerminates: a pass counts as rested when fifteen minutes have passed since the last write and no more than 500 collections are active; other passes are covered by `Recovery.RunProgress`.
- `checkBlob` verdicts; the texts of messages and errors in rows.
- TerminalFailure.FailedOnce: deliveries by evidence id are excluded, see `TerminalFailure.EvidenceFailureIsSilent`.
- Engine.WalkOutcome: whether a member is an archive, what its reader returns and whether the preview parsers accept it are given; a member the parsers reject with an exception ends the analysis, as in the code.
- ProductionValidate.ValidateProductionSet: unique ids, and no cycle through an item from which the loop walks down; a walk on a cycle that ends because it finds something is excluded with the others.
- DAT and OPT load files, stamps, images, manifests of a production, Bates reservation in the database.
- HTTP, OAuth and provider connectors, queues, mail and PST tooling, encryption at rest.
