# Verification of the Verbatrace monolith's core

A Dafny model of the parts of the monolith whose correctness does not show in a single body, and the proofs of what they promise. `dafny verify dfyconfig.toml` checks the whole project.

## What is modelled

**Reference cleaner** (`Monolit/internal/analysistext`). The IDs, bracketed lists, segment pointers and labelled references that the cleaner removes are written as regular expressions with one-rune lookaround (`Grammar`, `ReferenceGrammar`), with the usual meaning of a match. The hand-written matchers and removal loops (`ReferenceScanner`) are methods over runes; each is proved to return the longest match of its expression, and each removal loop to drop the longest matches from left to right. On top of that: a list has a single end (`ListGrammar`), the pointer grammar is decided despite overlapping prepositions (`SegmentGrammar`), what stands for an ID with a title and in which order the stages work (`ReferenceTitles`), exactly when an ID survives the last stage (`ReferenceResidue`), when one is put together and when a second pass changes nothing (`ReferenceSplices`), and that braces separate the text for all stages (`ReferenceBarriers`). `FieldKeys` treats snake_case keys: greedy matches filtered by their edges equal the pattern with lookaround.

**Assistant runs** (`Monolit/internal/assistant/service.go`). The chat, message and run tables with the transactions over them (`AssistantRuns`), the invariant they keep (`AssistantInvariant`), and a transition system of recovery workers, requests, deletions, crashes and waiting, one transaction at a time (`AssistantSystem`). `AssistantStore` has the tables as a class, whose recovery pass is proved to be a run of that system. `AssistantRequests` holds the canonical form of a request. `FilterSql` gives the generated filter a three-valued meaning.

**Search index** (`Monolit/internal/assistant/indexer.go`). The text splitter and the chunks of a payload (`TextSplitter`), their place in the text (`TextSlices`), the indexing transaction (`SearchIndex`), every interleaving of edits, access changes, profile switches and any number of indexers (`IndexSystem`), what access changes and edits hide (`IndexAccess`), and the table updated in place (`DocumentStore`).

**Plan bundle** (`Monolit/internal/planbundle`, `models/billing.go`). The subscription table with grants, transfers and withdrawals (`PlanBundle`), the promise over all runs, and the merge as a least upper bound (`BundlePromise`), what each operation leaves (`BundleEffects`), and the table updated in place (`BundleStore`).

**Smaller pieces.** Credit pricing (`Pricing`), the scatter loop of an embedding answer (`Embedding`), username normal forms (`Username`), whitespace and trimming (`Text`).

## Results worth knowing

- The comment on the recovery worker says that a replay cannot create a second answer for a run. The code keeps that, and the join that finds the producing run, exactly when there is at most one recovery worker (`AssistantSystem.SafeExactlyWithOneWorker`): a run that is older than two minutes is claimed again while its first worker is still busy, and neither the snapshot nor the completion looks at the state. One process starts one worker, so the promise assumes one process. Message numbers, one active run of a chat and unique keys need no such assumption (`AssistantSystem.AnyWorkersKeep`).
- Removing labelled references can leave an ID behind, exactly when an ID of its own is glued to a label that introduces another one: `r5см r1` becomes `r5` (`ReferenceResidue.IdsRemain`). In the same inputs, and no others, a second pass finds more (`ReferenceSplices.IdempotentExactly`).
- It can also put together an ID that was never written, exactly when a dot and digits after the cut continue the glued ID: `r5см r1.3.5` becomes `r5.5` (`ReferenceSplices.SplicesExactly`, `SplicedExample`).
- The idempotency check compares hashes, and two inputs escape it (`AssistantRequests.HashDecides` has the exact condition). The error of `json.Marshal` is dropped, so requests whose time lies outside the years 0 to 9999 in UTC all hash alike, and one under the key of another gets the other's run (`AssistantStore.LateRequestGetsOtherRun`). Labels that are absent in one request and an empty list in its retry hash apart, so the retry is refused (`AssistantRequests.EmptyLabelsHashApart`).
- A grant of a personal plan to the holder of a business plan may break the bundle's promise (`BundlePromise.WeakGrantBreaksPromise`), and so may withdrawing one. Every other step keeps it; the exact condition over whole runs is `BundlePromise.PromiseIsKept`.
- The 64-bit pricing path refuses costs whose price would fit; the exact bound is in `Pricing.FastPathIsExact`.

## How to read it

- Unicode's letter and number tables, lower-casing, trimming of titles and transliteration are parameters (`Runes.Tables`, `Username.Script`) with the few facts the proofs use; both sets of facts are shown to be satisfiable. The words of the cleaner are a parameter of the same kind, and the shipped words are shown to meet what is asked of them. Whitespace, digits and the odd members of case folding are written out.
- Rows of the assistant's and the subscription tables are only added, so an identifier is the row's place. UUIDs are naturals in the order of their text. Hashes are taken to tell their inputs apart: a request's hash is its canonical form, or nothing when it does not marshal; a content hash is its content. Times of a request are nanoseconds in UTC.
- Each transaction or single statement is one atomic step. `AssistantRuns.Tables.answers` records which run wrote which answer; the database has no such column.
- What the caller's subscription and role allow, the clock, random bytes, and provider failures are parameters or steps of their own.
- `Sound`, and in the index `DocumentsSound`, names the invariant of the tables. A method that keeps it says so as an implication, because the source calls it in any state; `Keeps` and `KeepsSound` say what else stays.
- The batch that a recovery pass works on is a parameter with the meaning of the query, whose order leaves ties open.
- A matcher that fails returns -1. A failed transaction leaves the state as it was.

## Model

| member | source | states |
|---|---|---|
| `ReferenceScanner.BracketedList` | Monolit/internal/analysistext/analysistext.go:236-261 | The hand-written scan, which never goes back, returns the longest match of the list grammar at every position, and -1 exactly where there is none |
| `ListGrammar.ListHasOneEnd` | Monolit/internal/analysistext/analysistext.go:236-261 | The grammar leaves a list only one end, although an item such as u1.5 may end in two places |
| `ReferenceScanner.ListRest` | Monolit/internal/analysistext/analysistext.go:245-260 | From the end of an item the scan finds the one continuation and closing bracket that the grammar allows |
| `ListGrammar.ScanContinues` | Monolit/internal/analysistext/analysistext.go:245-260 | One turn of the scan: after a separator and an item the rest of the list goes on from the item's longest end, otherwise only a closing bracket can follow |
| `ListGrammar.LongestItem` | Monolit/internal/analysistext/analysistext.go:402-409 | Only the longest end of an item can be continued to a list, since a shorter one stops before a dot |
| `ReferenceScanner.ListItem` | Monolit/internal/analysistext/analysistext.go:264-271 | An entry ends where the longest match of an ID, with or without a label word, ends |
| `ReferenceScanner.RefAt` | Monolit/internal/analysistext/analysistext.go:399-409 | The end of an ID is the longest end whose edges are free, and -1 exactly when the ID predicate holds for no end |
| `ReferenceGrammar.RefMatch` | Monolit/internal/analysistext/analysistext.go:395-409 | The regular expression of an ID with its edges means the same as the rune-by-rune predicate |
| `ReferenceGrammar.RefEndsSound` | Monolit/internal/analysistext/analysistext.go:411-426 | Every candidate end of an ID is one, longest first |
| `ReferenceGrammar.RefEndsComplete` | Monolit/internal/analysistext/analysistext.go:411-426 | No end of an ID with a free edge is missing from the candidates |
| `ReferenceScanner.LabelEnds` | Monolit/internal/analysistext/analysistext.go:428-452 | Lists exactly the places where a label word may end |
| `ReferenceScanner.RemoveBracketedLists` | Monolit/internal/analysistext/analysistext.go:221-232 | The removal loop equals dropping the longest matches of the list grammar from left to right |
| `ReferenceScanner.SegmentReference` | Monolit/internal/analysistext/analysistext.go:298-311 | Decides (\s+PREPOSITION)?(\s+NOUN\p{L}*)?\s+sN(.N)? with its edges: the longest match over every split, or -1 exactly when no split exists |
| `ReferenceScanner.SegmentNounAndID` | Monolit/internal/analysistext/analysistext.go:314-330 | The same for the part from the noun on |
| `ReferenceScanner.SpacedSegmentID` | Monolit/internal/analysistext/analysistext.go:332-346 | The same for the spaced segment ID alone |
| `SegmentGrammar.PrepositionFound` | Monolit/internal/analysistext/analysistext.go:304-309 | The first preposition that leads to an ID gives the longest match, although в and во, о and об overlap |
| `SegmentGrammar.SegmentEnd` | Monolit/internal/analysistext/analysistext.go:298-311 | A pointer with a preposition is never also one without it, so trying prepositions first loses nothing |
| `ReferenceScanner.RemoveSegmentReferences` | Monolit/internal/analysistext/analysistext.go:280-291 | The removal loop equals dropping the longest matches of the pointer grammar from left to right |
| `ReferenceScanner.LabelledRef` | Monolit/internal/analysistext/analysistext.go:364-379 | Finds the longest match of an ID with or without a label, and splits it into its label and its ID |
| `ReferenceScanner.ReplaceLabelledRefs` | Monolit/internal/analysistext/analysistext.go:349-362 | The replacement loop equals replacing the longest matches by what the titles name |
| `LabelledGrammar.NoTitles` | Monolit/internal/analysistext/analysistext.go:381-393 | Without titles every matched ID is dropped with its label |
| `ReferenceTitles.LabelledMatchIsNamed` | Monolit/internal/analysistext/analysistext.go:349-393 | Wherever a labelled ID stands, what replaces it is the label and the title in quotation marks, the title being that of the ID or else of its lower case; and nothing exactly when both are absent or blank |
| `ReferenceTitles.BareMatchIsNamed` | Monolit/internal/analysistext/analysistext.go:349-393 | The same without a label |
| `ReferenceTitles.LabelledTextIsNamed` | Monolit/internal/analysistext/analysistext.go:349-393 | The replacement loop on a text that is one labelled ID gives just that |
| `ReferenceTitles.BareTextIsNamed` | Monolit/internal/analysistext/analysistext.go:349-393 | And on a text that is one bare ID |
| `ReferenceTitles.ListGoesWhole` | Monolit/internal/analysistext/analysistext.go:183-185 | All stages together remove a text that is one list, with any titles: lists go before their IDs are named |
| `ReferenceTitles.PointerGoesWhole` | Monolit/internal/analysistext/analysistext.go:183-185 | And a text that is one segment pointer, before its ID could be named |
| `ReferenceTitles.LabelledIsLast` | Monolit/internal/analysistext/analysistext.go:183-185 | A labelled ID that is in neither is named by all stages together |
| `ReferenceResidue.IdsRemain` | Monolit/internal/analysistext/analysistext.go:350-362 | With no titles an ID is left exactly when one stood glued to a label that introduces another ID; so none is left when no matched label follows a letter or digit |
| `ReferenceSplices.SplicesExactly` | Monolit/internal/analysistext/analysistext.go:350-362 | Deletions put an ID together from two pieces exactly when an ID of a letter and digits is glued to a labelled one and, right behind the cut, a dot and digits follow that end freely or at a further cut |
| `ReferenceSplices.SplicedExample` | Monolit/internal/analysistext/analysistext.go:350-362 | Such an input: r5см r1.3.5 becomes r5.5, an ID that stood nowhere in it |
| `ReferenceSplices.WholePartsStood` | Monolit/internal/analysistext/analysistext.go:350-362 | Only a part from the dot on can be so joined: the part before the dot of any ID that is left stood in the input in one piece |
| `ReferenceSplices.DropsNothing` | Monolit/internal/analysistext/analysistext.go:350-362 | Dropping leaves a text as it is exactly when it holds no ID |
| `ReferenceSplices.IdempotentExactly` | Monolit/internal/analysistext/analysistext.go:350-362 | Dropping twice is dropping once exactly when no ID of its own is glued to a labelled one |
| `ReferenceSplices.SecondPassFindsMore` | Monolit/internal/analysistext/analysistext.go:350-362 | One input where it is not: r5см r1 becomes r5, and then nothing |
| `ReferenceResidue.DroppingKeepsOrder` | Monolit/internal/analysistext/analysistext.go:221-232 | Whatever is dropped, the output is a subsequence of the input |
| `Grammar.Barrier` | Monolit/internal/analysistext/analysistext.go:82-91 | A rune that no class and no edge of an expression accepts splits the text: replacing on both sides is replacing in the whole |
| `ReferenceBarriers.StagesAvoidBraces` | Monolit/internal/analysistext/analysistext.go:82-83 | Braces are such runes for lists, pointers and labelled IDs |
| `ReferenceBarriers.StripReferences` | Monolit/internal/analysistext/analysistext.go:183-185 | The three rune stages one after the other |
| `ReferenceBarriers.BracesSplit` | Monolit/internal/analysistext/analysistext.go:82-91 | All three stages together, with any titles, clean the text around a brace piece by piece |
| `ReferenceBarriers.AllBracesSplit` | Monolit/internal/analysistext/analysistext.go:82-91 | The same around any number of braces, such as those of speaker markers |
| `FieldKeys.FindAll` | Monolit/internal/analysistext/analysistext.go:191-192 | The leftmost greedy matches, none overlapping another |
| `FieldKeys.KeyEndIs` | Monolit/internal/analysistext/analysistext.go:58-60 | The greedy end of a key is the longest match of its pattern |
| `FieldKeys.AcceptableIs` | Monolit/internal/analysistext/analysistext.go:211-217 | A key is acceptable exactly when it is a match and no byte of a longer name, address, path or file name is next to it |
| `FieldKeys.AcceptableEnd` | Monolit/internal/analysistext/analysistext.go:187-190 | A key whose edges stand alone has no other end than the greedy one |
| `FieldKeys.AcceptableStart` | Monolit/internal/analysistext/analysistext.go:187-190 | No acceptable key starts inside another match, kept or rejected |
| `FieldKeys.ReplaceMatches` | Monolit/internal/analysistext/analysistext.go:178-210 | Greedy matches filtered by their edges afterwards delete exactly what the pattern with lookaround deletes |
| `AssistantStore.Store.AddMessageAndRun` | Monolit/internal/assistant/service.go:752-797 | The transaction that adds a user message with the next number and a queued run, and its refusals |
| `AssistantStore.Store.Create` | Monolit/internal/assistant/service.go:716-797 | A whole request: validation, ownership, the idempotency key, then the transaction. Whatever it answers, it keeps what one worker relies on (the sound tables), what any number relies on, every row, and the end of every ended run |
| `AssistantStore.Store.NextSequence` | Monolit/internal/assistant/service.go:771-774 | The next number is one more than the largest of the chat |
| `AssistantStore.Store.Claim` | Monolit/internal/assistant/service.go:104-112 | A queued run, or an active one received over two minutes ago, becomes retrieving and no other run changes; the tables stay sound; it can be claimed again at once exactly when it is over two minutes old |
| `AssistantStore.Store.Save` | Monolit/internal/assistant/service.go:825-827 | The snapshot takes exactly for an active run, which keeps the tables sound, and for an ended run in a chat with no active one, which it reopens; a chat never gets a second active run |
| `AssistantStore.Store.Commit` | Monolit/internal/assistant/service.go:901-954 | The answer is stored word for word as the last message of the run's chat, with the next number, and the run is completed, whatever its state was; from an active run the tables stay sound and the chat is free for the next request |
| `AssistantStore.Store.Fail` | Monolit/internal/assistant/service.go:1002-1005 | Failing an active run keeps the tables sound and frees its chat; a completed, failed, cancelled or revoked run stays as it ended |
| `AssistantStore.Store.RecoverRuns` | Monolit/internal/assistant/service.go:79-131 | One pass over the listed runs, whatever becomes of each: it is a run of the system with one worker, every listed run ends as its provider's outcome says, the messages it adds are exactly the answers, in order and word for word, no other run changes, and sound tables stay sound |
| `AssistantStore.Store.Complete` | Monolit/internal/assistant/service.go:808-958 | What follows a claim, snapshot first: a run of the same system that ends in completion with the answer stored, in failure, or in the state it was left in |
| `AssistantStore.Store.Delete` | Monolit/internal/assistant/service.go:1207-1234 | A chat is marked deleted exactly for its owner and without a run under way, no other chat changes, and the tables stay sound |
| `AssistantStore.RequestIsDecided` | Monolit/internal/assistant/service.go:716-797 | Which of its answers a request gets, in terms of its fields and the rows: limits, the owner and company of the chat, the right to chat, the key, a run under way, a resent message |
| `AssistantStore.RequestIsStored` | Monolit/internal/assistant/service.go:775-797 | A request that makes a run adds its trimmed words under its own message identifier and one queued run of its user, company and key, and changes no other row |
| `AssistantStore.OtherwiseNothingIsStored` | Monolit/internal/assistant/service.go:716-797 | A request that makes no run changes nothing |
| `AssistantStore.RequestIsRemembered` | Monolit/internal/assistant/service.go:733-739 | The stored hash is that of the request as sent, with the chat's detail in place of one that is not known |
| `AssistantStore.DeletedStaysClosed` | Monolit/internal/assistant/service.go:757-763 | Once a chat is deleted, no request for it makes a run, however the system goes on |
| `AssistantInvariant.AddSound` | Monolit/internal/assistant/service.go:757-797 | Adding a request keeps the invariant of the tables: numbers 1..n, one active run, answers after their questions, unique keys |
| `AssistantInvariant.CommitSound` | Monolit/internal/assistant/service.go:901-954 | Committing the answer of an active run keeps that invariant |
| `AssistantInvariant.StateSound` | Monolit/internal/assistant/service.go:105-112 | Moving an active run to another state than completed keeps that invariant |
| `AssistantInvariant.DeleteSound` | Monolit/internal/assistant/service.go:1221-1231 | Deleting a chat keeps that invariant |
| `AssistantInvariant.ClaimSound` | Monolit/internal/assistant/service.go:104-112 | Taking a run over keeps that invariant, whether or not the claim succeeds |
| `AssistantInvariant.SnapshotSound` | Monolit/internal/assistant/service.go:825-827 | The snapshot of an active run keeps that invariant |
| `AssistantInvariant.FailSound` | Monolit/internal/assistant/service.go:1002-1005 | Failing an active run keeps that invariant |
| `AssistantSystem.StepKeeps` | Monolit/internal/assistant/service.go:79-131 | With one worker every step keeps the tables sound and the worker's run active, whatever else happens between its transactions |
| `AssistantSystem.RunKeeps` | Monolit/internal/assistant/service.go:61-131 | Over every run with one worker, crashes included: messages are only added, runs change nothing but their state, and closed runs stay as they are |
| `AssistantSystem.SoundIsExact` | Monolit/internal/assistant/service.go:1151-1166 | The join on the previous number finds exactly the run that produced an assistant message, and every completed run has such a message |
| `AssistantSystem.NumberedCovers` | Monolit/internal/assistant/service.go:771-774 | The numbers of a chat's messages are exactly 1..n, each once |
| `AssistantSystem.OneWorkerKeeps` | Monolit/internal/assistant/service.go:61-131 | In every state reachable with at most one worker all of this holds, at most one run of a chat is active and none of a deleted chat |
| `AssistantSystem.RunExtends` | Monolit/internal/assistant/service.go:61-131 | With any number of workers messages are only added, an answer stays that of its run, runs change nothing but their state, and a deleted chat stays deleted with its owner |
| `AssistantSystem.BatchIsOldest` | Monolit/internal/assistant/service.go:80-84 | A recoverable run that a batch leaves out is no older than any of the five it lists |
| `AssistantSystem.SaveAlwaysHolds` | Monolit/internal/assistant/service.go:825-827 | A late snapshot opens no second active run of a chat, however many workers there are |
| `AssistantSystem.AnyWorkersKeep` | Monolit/internal/assistant/service.go:61-131 | With any number of workers messages are still numbered 1..n, a chat has at most one active run, and no two runs share an idempotency key |
| `AssistantSystem.TwoWorkersClash` | Monolit/internal/assistant/service.go:105-105 | Two workers can both answer one run, the second two minutes later, because neither the snapshot nor the completion looks at the state |
| `AssistantSystem.SafeExactlyWithOneWorker` | Monolit/internal/assistant/service.go:58-61 | The promise that a replay creates no second answer, and the join, hold in every run of the system exactly when there is at most one recovery worker |
| `AssistantRequests.CanonicalIDs` | Monolit/internal/assistant/service.go:1137-1147 | Sorts a copy of the identifiers and compacts it over itself |
| `AssistantRequests.CompactInPlace` | Monolit/internal/assistant/service.go:1140-1146 | The compaction over the same array keeps the first of each run of equals |
| `AssistantRequests.CanonicalIncreases` | Monolit/internal/assistant/service.go:1137-1147 | The result is strictly increasing and holds the same identifiers |
| `AssistantRequests.CanonicalDecides` | Monolit/internal/assistant/service.go:1137-1147 | Two lists have the same canonical form exactly when they are equal as sets |
| `AssistantRequests.HashDecides` | Monolit/internal/assistant/service.go:1119-1136 | Two requests hash alike exactly when they agree on everything but the key, surrounding space, and the order and repetition of identifiers, and both or neither give labels; or when neither of them can be marshalled |
| `AssistantRequests.HashTellsExactly` | Monolit/internal/assistant/service.go:1119-1136 | When comparing hashes is comparing requests: for the same request, if labels are given alike or its times do not marshal; for different ones, if one of them marshals |
| `AssistantRequests.LateHashesAlike` | Monolit/internal/assistant/service.go:1134-1135 | An input where it is not: the times 9999-12-31T23:30:00-01:00 lie in the year 10000 of UTC, and such requests over different calls hash alike |
| `AssistantRequests.EmptyLabelsHashApart` | Monolit/internal/API/search/assistant.go:171-199 | Another: absent labels and an empty list of labels ask the same and hash apart |
| `AssistantStore.RetryDecides` | Monolit/internal/assistant/service.go:739-751 | A request under a known key returns the existing run if it passes as the same (the condition of HashDecides) and is refused otherwise, and adds no row either way |
| `AssistantStore.RetryAnyTime` | Monolit/internal/assistant/service.go:739-751 | The same however the system, with any number of workers, went on in between |
| `AssistantStore.LateRequestGetsOtherRun` | Monolit/internal/assistant/service.go:739-751 | From one chat and no runs: a request with such a late time makes a run, and a request over another call under the same key is answered with it |
| `FilterSql.FilterSQL` | Monolit/internal/assistant/service.go:466-501 | The loops that append conjuncts and arguments build the specified clause |
| `FilterSql.FilterMeans` | Monolit/internal/assistant/service.go:466-501 | Between any other arguments, the clause keeps exactly the rows that the filter accepts, a call without a department included, and numbers its placeholders start, start+1, … in argument order |
| `FilterSql.ContentQuery` | Monolit/internal/assistant/service.go:307-331 | The search query numbers its placeholders 1, 2, … with none left over, and names the vector and the threshold it appended |
| `FilterSql.ScopeQuery` | Monolit/internal/assistant/service.go:352-355 | The same for the count and for the full content of selected calls |
| `TextSplitter.SplitText` | Monolit/internal/assistant/indexer.go:306-329 | The loop over the remaining runes returns the specified chunks, none for a limit of zero or less; what they are is stated by the next rows |
| `TextSlices.ChunksAreSlices` | Monolit/internal/assistant/indexer.go:306-329 | The chunks are slices of the text, word for word and in order, and every rune outside them is whitespace |
| `TextSlices.ShortTextIsOneChunk` | Monolit/internal/assistant/indexer.go:306-329 | A text within the limit is one chunk, itself without its outer whitespace, and a blank text none |
| `TextSlices.TrimIsInner` | Monolit/internal/assistant/indexer.go:310-322 | Trimming takes whitespace off the two ends and nothing else |
| `TextSplitter.FindEnd` | Monolit/internal/assistant/indexer.go:313-321 | Looks back for the last space or newline in the second half of the window |
| `TextSplitter.ChunkEndFits` | Monolit/internal/assistant/indexer.go:312-321 | A step that is not the last takes at least limit/2+1 runes and at most the limit; it cuts a word only when that half of the window holds no space or newline |
| `TextSplitter.SplitHolds` | Monolit/internal/assistant/indexer.go:306-329 | The chunks are trimmed, not empty and within the limit, and hold the text whitespace aside |
| `TextSplitter.ChunksAreFew` | Monolit/internal/assistant/indexer.go:306-329 | The number of chunks is bounded by the length over limit/2+1 |
| `TextSplitter.ChunkPayload` | Monolit/internal/assistant/indexer.go:290-305 | The chunks of a payload, segment by segment, or of its text when it has no segments |
| `TextSplitter.SegmentsAreKept` | Monolit/internal/assistant/indexer.go:290-305 | The chunks hold what the segments say, whitespace aside |
| `TextSplitter.SegmentsAreNamed` | Monolit/internal/assistant/indexer.go:290-305 | Every chunk has the speaker and the times of one of the segments |
| `TextSlices.SegmentsAreCut` | Monolit/internal/assistant/indexer.go:290-305 | Every chunk is a slice of one segment under that segment's own speaker and times, in the order of the segments and within each, and what no chunk quotes is whitespace |
| `DocumentStore.IndexStore.Index` | Monolit/internal/assistant/indexer.go:174-216 | The transaction writes one ready document with the chunks of transcript and analysis, dated now, in the place of its key or at the end, makes the other ready documents of the call and profile stale, and changes no other; sound documents stay sound. Or it changes nothing, exactly when the revision is no longer active |
| `DocumentStore.IndexStore.Stale` | Monolit/internal/assistant/indexer.go:178-178 | The ready documents of the call under the profile become stale and dated now, and no others change; sound documents stay sound |
| `IndexSystem.IndexKeeps` | Monolit/internal/assistant/indexer.go:174-216 | The transaction keeps documents true to their revisions, their keys different, and one ready document of a call under a profile |
| `IndexSystem.StepKeeps` | Monolit/internal/assistant/indexer.go:60-216 | So does every edit, selection, access change, profile switch, read, write and abandoned write of any number of indexers |
| `IndexSystem.SearchIsFaithful` | Monolit/internal/assistant/service.go:1182-1190 | In every run a call has at most one document that passes as current, and its transcript chunks are those of the active revision |
| `IndexSystem.QuotesWhatWasSaid` | Monolit/internal/assistant/service.go:1182-1190 | A current document quotes the active revision word for word, by slices in order under their segments' speakers and times, and leaves out only whitespace |
| `IndexAccess.AccessChangeHides` | Monolit/internal/assistant/service.go:1182-1190 | What was written before access to its call was changed is never found again unless written anew, however the system goes on |
| `IndexAccess.ClosedIsHidden` | Monolit/internal/assistant/service.go:1182-1190 | Nothing of a closed call is found |
| `IndexAccess.OldIsHidden` | Monolit/internal/assistant/service.go:1182-1190 | Nothing of another revision than the active one, or under a retired profile, is found |
| `IndexAccess.WrittenIsFound` | Monolit/internal/assistant/indexer.go:174-216 | In every run of the system, writing what is up to date leaves a document that is found, with the chunks of the active revision |
| `IndexAccess.EditHides` | Monolit/internal/assistant/service.go:1182-1190 | After an edit nothing of the call is found until it is indexed again |
| `IndexAccess.RevisionsStay` | Monolit/internal/service/transcriptionedit/service.go:153-160 | A new call has one revision, which is active, and selecting a revision rewrites none |
| `IndexAccess.ActivateSwitches` | Monolit/internal/assistant/indexer.go:93-115 | Switching profiles leaves just the new one active and hides the documents of all others |
| `IndexAccess.ReadsOpenCalls` | Monolit/internal/assistant/indexer.go:60-120 | An indexer reads open calls only, each in the words of its active revision |
| `PlanBundle.BundledPersonalPlan` | Monolit/internal/models/billing.go:54-65 | The bundled plan is a personal plan of the same, paid tier |
| `BundleStore.SubscriptionStore.EnsureBundle` | Monolit/internal/planbundle/planbundle.go:36-101 | The branches of the merge leave the specified rows: the owner's personal plan covers the business plan, and nothing else changed |
| `BundleStore.SubscriptionStore.TransferPlan` | Monolit/internal/planbundle/planbundle.go:111-145 | The business plan moves to a person who holds none, who then holds it and the sender none, and the promise stays whole; or nothing changes |
| `BundleStore.SubscriptionStore.GrantPlan` | Monolit/internal/repository/admin/subscriptions.go:116-209 | A grant that is done renews the running row of the plan or replaces what was held of its kind (BundleEffects), and a personal plan covers a business plan; the promise stays whole exactly when the grant is careful; one that is refused changes nothing |
| `BundleEffects.RenewalIs` | Monolit/internal/repository/admin/subscriptions.go:164-180 | Renewing a running plan moves the end of that very row, keeps its start, cancels nothing, leaves it the active one and, for a business plan, its holder covered to the new end |
| `BundleEffects.ReplacementIs` | Monolit/internal/repository/admin/subscriptions.go:184-199 | Otherwise what the user held of the kind is cancelled, at the grant's start but after its own, and the new row of the plan begins with the grant |
| `BundleEffects.GrantRefuses` | Monolit/internal/repository/admin/subscriptions.go:116-209 | A grant is refused exactly for a plan of another kind, an empty period, or a renewal into the past of a business plan whose holder has no personal plan |
| `BundleEffects.TransferDecides` | Monolit/internal/planbundle/planbundle.go:103-145 | A transfer is refused exactly when the receiver holds a business plan, or the plan has run out and the receiver has no personal plan; otherwise it moves what there is to move |
| `BundleEffects.EnsureAdds` | Monolit/internal/planbundle/planbundle.go:52-67 | A new personal row has the tier and the end of the business plan and starts now |
| `BundleEffects.WithdrawalIs` | Monolit/internal/repository/admin/subscriptions.go:210-251 | A plan under way ends now and nothing else changes; one that began this moment stays |
| `BundleStore.SubscriptionStore.WithdrawPlan` | Monolit/internal/repository/admin/subscriptions.go:210-251 | A withdrawal ends the running plan of a kind now, and keeps the promise exactly when it is careful |
| `BundlePromise.EnsureChanges` | Monolit/internal/planbundle/planbundle.go:26-101 | Only the owner's personal plan changes; it never gets weaker or shorter, and covers the business plan |
| `BundlePromise.PromiseIsKept` | Monolit/internal/planbundle/planbundle.go:1-145 | In every run of grants, guarded transfers and withdrawals each user has at most one active plan of a kind, and every business holder a personal plan of at least its tier that ends no earlier, after every step, exactly when no step grants such a holder a personal plan that does not cover the business plan or withdraws the personal one |
| `BundlePromise.TransferConserves` | Monolit/internal/planbundle/planbundle.go:103-145 | A transfer keeps the subscription, its plan and its end, and touches no other business plan |
| `BundlePromise.PersonalGrantKeepsPromise` | Monolit/internal/repository/admin/subscriptions.go:164-209 | A grant of a personal plan keeps the promise exactly when it covers the business plan its user holds, which the grant does not look at |
| `BundlePromise.WeakGrantBreaksPromise` | Monolit/internal/repository/admin/subscriptions.go:164-209 | An input where it does not: after a grant of the top business plan, a grant of the smallest personal plan is accepted and the promise is broken |
| `BundlePromise.WithdrawKeepsPromise` | Monolit/internal/repository/admin/subscriptions.go:210-251 | Withdrawing a personal plan keeps the promise exactly when its user holds no business plan |
| `BundlePromise.GrantsGiveLeast` | Monolit/internal/planbundle/planbundle.go:74-91 | Any sequence of grants leaves the least plan and end that cover what was held and granted |
| `BundlePromise.EnsureOrderDoesNotMatter` | Monolit/internal/planbundle/planbundle.go:74-91 | The same grants in any order, however often repeated, end in the same personal plan and end |
| `BundlePromise.MergeIsIdempotent` | Monolit/internal/planbundle/planbundle.go:74-91 | Granting the same again changes nothing |
| `Pricing.CheckedCeilProduct` | Monolit/internal/billingcredits/pricing.go:98-123 | The price is the exact ceiling of the rational product, and an overflow exactly when 64 bits cannot hold it; a negative factor is reported before a divisor that is not positive |
| `Pricing.FastPathIsExact` | Monolit/internal/billingcredits/pricing.go:24-38 | The 64-bit path is exact where it answers, and refuses exactly the costs above a seventh of the range although their price would fit |
| `Pricing.CreditsFromProviderCostNanoUSD` | Monolit/internal/billingcredits/pricing.go:42-50 | A charge in nano-dollars always has a price: the exact ceiling |
| `Pricing.PathsAgree` | Monolit/internal/billingcredits/pricing.go:20-50 | Both paths price a cost alike whenever both accept it |
| `Pricing.CreditsFromProviderCostNanoUSDWithPolicy` | Monolit/internal/billingcredits/pricing.go:52-60 | The same with a policy, which must be positive |
| `Pricing.CreditsForAudioWithPolicy` | Monolit/internal/billingcredits/pricing.go:62-70 | The price of audio by the hour, rounded up once |
| `Pricing.PriceIsMonotone` | Monolit/internal/billingcredits/pricing.go:98-123 | Under any policy a larger cost is priced no lower, and if its price fits so does that of the smaller one |
| `Pricing.SplitChargeCostsLittleMore` | Monolit/internal/billingcredits/pricing.go:98-123 | Under any policy, n charges whose products add up to one charge cost at least its price and at most n-1 credits more |
| `Pricing.PartsOfACharge` | Monolit/internal/billingcredits/pricing.go:40-70 | So do a provider's cost or a recording's length, charged in n parts |
| `Embedding.Scatter` | Monolit/internal/assistant/provider.go:91-116 | An answer is accepted exactly when the count fits and no item is faulty, and the error is that of the first faulty item; accepted, every slot holds the vector of the one item that named it |
| `Embedding.EverySlotIsNamed` | Monolit/internal/assistant/provider.go:95-116 | As many items as slots, in range and all different, leave no slot empty |
| `Embedding.CheckVector` | Monolit/internal/assistant/provider.go:102-113 | A vector is refused when a component is not finite, or when all are zero |
| `Username.Sanitize` | Monolit/internal/username/username.go:72-91 | The loop with its flag returns the sanitized text that the next row describes |
| `Username.SanitizedIs` | Monolit/internal/username/username.go:72-91 | Sanitizing writes ASCII letters and digits as they are, in order, and one underscore for each run of anything else |
| `Username.Normalize` | Monolit/internal/username/username.go:20-36 | The normalised name is empty or short and clean, is accepted exactly when it fits the pattern, and normalising it again gives the same name and answer |
| `Username.NormalizedIsNormal` | Monolit/internal/username/username.go:20-36 | Normalisation leaves nothing, or lower-case letters, digits and single inner underscores within the length |
| `Username.NormalizeKeepsLetters` | Monolit/internal/username/username.go:20-36 | It keeps the letters and digits of the transliterated text in order, and loses some only at the end of a name that fills the length |
| `Username.AcceptedBy` | Monolit/internal/username/username.go:20-36 | A normalised name is accepted exactly when it has at least four characters and a letter in front |
| `Username.NormalizeIsIdempotent` | Monolit/internal/username/username.go:20-36 | Normalising twice is normalising once, on accepted and refused input alike |
| `Username.Generate` | Monolit/internal/username/username.go:38-66 | The name is the first fitting part, cleaned and cut to 16 characters, or user when none fits, and one letter or digit for each random byte; it satisfies the pattern and is a fixed point of normalisation |
| `Username.Suffix` | Monolit/internal/username/username.go:101-113 | Random bytes become letters and digits of the alphabet |

## Left out

- The case rules that start at the beginning of a piece, the transliterated unit and the final tidying of the cleaner: cleaning piece by piece is not cleaning the whole there, and tidying can itself join text.
- The schema terms other than snake_case keys in the cleaner: they share the replacement loop, with fixed words for a pattern.
- Splitting the text at speaker markers: what is proved is that the braces around them separate the stages, not the marker pattern itself.
- Go's regular expression engine: a match of the field-key pattern is found by the leftmost greedy end, which is proved to be the longest match.
- Titles of an analysis result, analysis chunks and their freshness, ranking, similarity and full-text queries: uninterpreted or not modelled.
- Progress of the indexer: a call without chunks is selected again forever, so it would be false. Which calls it selects and in what order is left open; a reading indexer may pick any call it may see.
- The text of the generated SQL: clauses are trees, and the access, scope and full-text conditions are only their fixed placeholders.
- Chat titles, drafts, citations, artifacts, the credit meter and every provider call around a run; a run may fail or be given up at any point instead.
- Deadlocks, serialization failures and lost connections: they abort a transaction, which is a step not taken.
- Updates of a chat's settings: the response detail of a chat does not change in the model.
- AssistantSystem.StepKeeps: it assumes one recovery worker, since with two it is false; the exact statement is AssistantSystem.SafeExactlyWithOneWorker.
- AssistantSystem.RunKeeps: for the same reason it speaks of one worker.
- Embedding.Scatter: components are reals or not finite, because the norm is only compared with zero and no square of a float32 underflows a float64.
- BundleStore.SubscriptionStore.GrantPlan: the audit trail, the selection of companies to freeze, and a plan code missing from the catalog are not modelled; a catalog holds all codes.
- Handlers, routing, configuration, jobs, retention and the other services.
