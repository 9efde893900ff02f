# SciChat ingestion, indexing and server bookkeeping in Dafny

SciChat lets a user upload scientific papers (PDF), extracts their title,
authors, organisations and e-mail addresses, embeds those fields and
overlapping chunks of the full text into a Pinecone index, and answers
questions over the corpus through an LLM chain, keeping a per-conversation
history on the server. This project models the parts of that pipeline that
are the repository's own logic, and proves what they promise:

- `Facets` — the keyword facet classifier `determine_text_key`
  (embedding_utils.py). Nothing in the repository calls it.
- `Chunker` — the fixed-stride chunker of `process_and_store_embeddings`:
  windows of 1000 characters every 800, blank windows dropped.
- `Indexer` — `get_embedding` and `process_and_store_embeddings`: the
  vector-entry id/metadata scheme (`{id}_title`, ..., `{id}_chunk_{i}`), the
  skip rules for empty ids and blank content, and the upsert batches of 100.
- `Extraction` — the title/email derivation of `parse_and_extract` and the
  line window, dedupe, filter and set difference of
  `extract_authors_and_organizations` (file_utils.py).
- `Summaries` — the five-line header strip and the ordered fallback search
  for section text in `summarize_sections` (summary_utils.py).
- `Server` — app.py: the in-memory `conversation_history` store used by
  `/ask` and `DELETE /conversations/{id}` (a class whose methods update the
  map in place), the default-filled record and `.pdf` check of `/upload`,
  and the fold of index matches into one record per document of
  `/documents`.
- `Text` and `Wrappers` — the Python string operations the code relies on
  (`lower`, `in`, `strip() == ""`, `split(sep)`, `split()`, `join`,
  `endswith`, `str(int)`) and `Option`/`Result`.

Every external service is a parameter of the operation that uses it: the
sentence encoder (`string -> Option<vector>`, `None` when it raises), the
success of each `index.upsert` call, whether `get_index()` and
`create_qa_chain` succeed, the QA chain's answer, the fresh uuid, the page
texts the two PDF loaders produce (`None` when loading raises), whether
spaCy's `nlp(text)` raises (its result is unused), the two
regular-expression matchers (line to list of matches), the text splitter
and the LLM summariser. The summariser is a partial function defined on
every non-blank text and assumed nowhere else, so the verifier itself
rejects any call on blank text. Python's `list(set(...))` has no fixed order; the
model picks the order nondeterministically (`:|`) and its contracts hold
for every order.

Four facts about the code that shape the model:

- `/ask` reports an unavailable index as 500: the handler raises
  `HTTPException(503)` at app.py:158, but the bare `except` at
  app.py:181-183 turns it into a 500.
- A failing upsert ends the batch loop, because the loop at
  embedding_utils.py:183-185 has no per-batch `try`. The batches before it
  stay stored, the later ones are never attempted, and the function
  returns `None` (embedding_utils.py:193-195).
- `determine_text_key` is never called. `/ask` never routes a question by
  facet or filters by facet, and `metadata_only` only reaches the broken
  call described under "Findings".
- There are ceil(len/800) windows; blank ones are dropped, so a text can
  have fewer chunks than windows (`Chunker.WindowsShape`,
  `Chunker.ChunksEmptyIffBlank`).

## Model

| member | source | states |
|---|---|---|
| Facets.DetermineTextKey | embedding_utils.py:33-53 | the key is always one of the five facet names, and each is returned exactly when its keyword list matches the lower-cased query and no list of higher priority (title > authors > organizations > emails) does |
| Facets.KeyMonotoneUnderExtension | embedding_utils.py:43-53 | adding text before or after a question can only move its key to a facet of equal or higher priority |
| Facets.KeyIgnoresCase | embedding_utils.py:43 | a query and its lower-cased form get the same key |
| Facets.TitleQuestionExample | embedding_utils.py:44-45 | "What is the title of this paper?" is routed to "title" |
| Chunker.Windows | embedding_utils.py:159-163 | definition: the slices `full_content[i:i + 1000]` for i in `range(0, len, 800)`; its shape is stated by `WindowsShape`, `StitchWindows` and `WindowsOverlap` |
| Chunker.WindowsFrom | embedding_utils.py:162-163 | definition: the clamped slices at offsets start, start + 800, ... below the length; stated by `WindowsFromCount`, `WindowsFromAt` and `StitchWindowsFrom` |
| Chunker.WindowsFromCount | embedding_utils.py:162 | the offsets from start in steps of 800 number ceil((len - start)/800) |
| Chunker.WindowsFromAt | embedding_utils.py:162-163 | window k starts at offset start + 800k, below the length, and is the 1000-character slice there, clamped at the end |
| Chunker.StitchWindowsFrom | embedding_utils.py:162-163 | the windows from start, with their overlaps dropped, concatenate to the text from start |
| Chunker.Chunks | embedding_utils.py:158-165 | definition: the non-blank windows; stated by `NonBlankMembers`, `NonBlankAppend`, `ChunkShape` and `ChunksEmptyIffBlank` |
| Chunker.NonBlank | embedding_utils.py:164-165 | definition: the windows that pass `len(chunk.strip()) > 0`, in order; stated by `NonBlankMembers` and `NonBlankAppend` |
| Chunker.WindowsShape | embedding_utils.py:159-163 | there are ceil(len/800) windows; window k is the slice at offset 800k of at most 1000 characters, clamped at the end of the text |
| Chunker.StitchWindows | embedding_utils.py:159-163 | the windows cover the text without gaps: dropping each window's overlap and concatenating gives the text back |
| Chunker.WindowsOverlap | embedding_utils.py:159-163 | consecutive windows overlap: what follows the first 800 characters of window k begins window k+1, and is 200 characters when window k is full |
| Chunker.NonBlankMembers | embedding_utils.py:163-165 | a chunk is exactly a window that is not blank after strip, and there are no more chunks than windows |
| Chunker.NonBlankAppend | embedding_utils.py:162-165 | dropping blank windows distributes over concatenation, so the chunks are the non-blank windows in window order, each occurrence kept |
| Chunker.ChunksEmptyIffBlank | embedding_utils.py:153-165 | a text yields no chunk exactly when it is blank, so the early skip agrees with chunking |
| Chunker.ChunkShape | embedding_utils.py:159-165 | every chunk is non-blank, at most 1000 characters, and the text's slice at some offset 800k |
| Chunker.SplitIntoChunks | embedding_utils.py:158-165 | the loop builds exactly the non-blank windows in order |
| Indexer.ZeroVector | embedding_utils.py:68 | a vector of 384 zeros |
| Indexer.GetEmbedding | embedding_utils.py:55-79 | blank (or empty) text gives the zero vector; otherwise the encoder's vector, or the zero vector when the encoder raises; the dimension is 384 whenever the encoder's is |
| Indexer.FieldEntry | embedding_utils.py:138-150 | definition: one metadata tuple `({id}_{field}, embedding, {type, document_id, text})`; stated by `FieldEntryWellKeyed` and `DocumentEntriesShape` |
| Indexer.MetadataEntries | embedding_utils.py:138-150 | definition: the four field tuples in the order title, authors, organizations, emails; stated by `DocumentEntriesShape` and `DocumentEntriesValues` |
| Indexer.ChunkEntry | embedding_utils.py:172-174 | definition: one chunk tuple `({id}_chunk_{i}, embedding, {type: "chunk", document_id, chunk_id, text})`; stated by `ChunkEntryWellKeyed` and `DocumentEntriesShape` |
| Indexer.DocumentEntries | embedding_utils.py:114-174 | definition: what one document adds to `all_vectors`; stated by `DocumentEntriesShape`, `DocumentEntriesWellKeyed` and `DocumentIdsUnique` |
| Indexer.AllEntries | embedding_utils.py:112-175 | definition: `all_vectors` after the document loop; stated by `AllEntriesKeyed`, `EntryIdsUnique` and `CollectVectors` |
| Indexer.ChunkEntries | embedding_utils.py:170-174 | one entry per chunk |
| Indexer.ChunkPart | embedding_utils.py:153-155 | definition: no chunk entries when the full content is blank, else one per chunk as at lines 170-174; stated by `DocumentEntriesShape` and `DocumentEntriesValues` |
| Indexer.DocumentEntriesShape | embedding_utils.py:114-174 | an empty id contributes nothing; otherwise exactly the four entries `{id}_title`, `{id}_authors`, `{id}_organizations`, `{id}_emails` with type the field name and text the field value, followed (unless the full content is blank) by `{id}_chunk_{i}` for i = 0, 1, ... with chunk_id i and the chunk's exact text |
| Indexer.DocumentEntriesValues | embedding_utils.py:138-174 | every entry of a document carries `get_embedding` of its own text (the field value, or the chunk), so it has 384 values whenever the encoder's vectors do |
| Indexer.AllEntriesValues | embedding_utils.py:112-174 | every entry of `all_vectors` carries `get_embedding` of its own text |
| Indexer.SuffixesUnambiguous | embedding_utils.py:139-171 | no id suffix (`_title`, ..., `_chunk_{i}`) is a proper suffix of another |
| Indexer.IdDeterminesKey | embedding_utils.py:139-171 | two well-formed entries with the same id have the same document id, type and chunk number |
| Indexer.DocumentEntriesWellKeyed | embedding_utils.py:138-174 | every entry of a document is id = document id + suffix of its type and chunk number, and carries that document id |
| Indexer.DocumentKeysDistinct | embedding_utils.py:138-174 | entries of one document differ in type or chunk number |
| Indexer.AllEntriesKeyed | embedding_utils.py:112-174 | every entry of the batch plan is well formed and belongs to one of the input documents |
| Indexer.EntryIdsUnique | embedding_utils.py:112-174 | when the non-empty document ids are distinct, all entry ids are pairwise distinct, so no upsert overwrites another entry of the same call |
| Indexer.DocumentIdsUnique | embedding_utils.py:138-174 | the entry ids of one document are pairwise distinct |
| Indexer.EntriesOfDistinctDocumentsDisjoint | embedding_utils.py:138-174 | documents with different ids never share an entry id |
| Indexer.Batches | embedding_utils.py:180-184 | definition: `all_vectors[i:min(i+100, n)]` for i in `range(0, n, 100)`; stated by `BatchesPartition` |
| Indexer.BatchesPartition | embedding_utils.py:178-186 | the batches concatenate to the entry list, number ceil(n/100) (none for no entries), hold 1 to 100 entries each, and all but the last hold exactly 100 |
| Indexer.AppendChunkEntries | embedding_utils.py:170-174 | the chunk loop appends exactly one entry per chunk, in chunk order, after the vectors already collected |
| Indexer.DocumentVectors | embedding_utils.py:114-174 | the loop body for one document produces exactly that document's specified entries |
| Indexer.CollectVectors | embedding_utils.py:112-175 | the document loop builds exactly the specified entry list |
| Indexer.UpsertBatches | embedding_utils.py:178-188 | batches are upserted in plan order; all are stored exactly when the index accepts every one; otherwise the first refused batch ends the loop and exactly the batches before it are stored |
| Indexer.ProcessAndStoreEmbeddings | embedding_utils.py:81-195 | no connection gives None before anything is read; otherwise the upsert outcome of the batch plan of the entry list, as `UpsertBatches` states |
| Extraction.LooksLikeEmail | file_utils.py:21 | definition: `"@" in word and "." in word`; stated by `EmailWordsFilter` and `EmailsAreWords` |
| Extraction.EmailWords | file_utils.py:21 | definition: the list comprehension over `text.split()`; stated by `EmailWordsFilter`, `EmailWordsAppend` and `ParseAndExtract` |
| Extraction.PagesText | file_utils.py:15 | definition: the page contents joined with single spaces; stated by `ParseAndExtract` and `ParseAndExtractWithContent` |
| Extraction.EmailWordsFilter | file_utils.py:21 | the email list keeps exactly the words holding "@" and ".", each as often as in the text |
| Extraction.EmailWordsAppend | file_utils.py:21 | the email filter distributes over concatenation, so the emails are in text order |
| Extraction.ParseAndExtract | file_utils.py:8-23 | the title is the joined page text up to its first "\n" (all of it when there is none); the emails are the filtered words of that text (order given by `EmailWordsAppend`), exactly those holding "@" and "."; no "abstract" and no "content" key is set |
| Extraction.ParseAndExtractWithContent | file_utils.py:19-22 | the corrected reading: same title and emails, and the joined text under "content" |
| Extraction.EmailsAreWords | file_utils.py:21 | every email is a non-empty word without whitespace holding "@" and "."; a text without "@" has none |
| Extraction.HeaderWindow | file_utils.py:40 | definition: `lines[1:6]` with Python clamping; stated by `ScannedLinesShape` |
| Extraction.TakeUntilAbstract | file_utils.py:40-42 | definition: the lines the loop reaches before its `break`; stated by `TakeUntilAbstractPrefix` |
| Extraction.ScannedLines | file_utils.py:37-42 | definition: the lines of `lines[1:6]` that the loop reaches before its `break`; stated by `ScannedLinesShape` |
| Extraction.TakeUntilAbstractPrefix | file_utils.py:40-42 | the scanned lines are the prefix before the first line containing "Abstract", which is not scanned |
| Extraction.ScannedLinesShape | file_utils.py:37-42 | only lines 1 to 5 of the first page are scanned, in order, stopping before the first one containing "Abstract" |
| Extraction.FlatMap | file_utils.py:47-53 | definition: the `extend` calls over the scanned lines, in line order; stated by `FlatMapMembers` and `ScanLines` |
| Extraction.FlatMapMembers | file_utils.py:47-53 | a string is collected exactly when some scanned line's matches contain it |
| Extraction.Institutional | file_utils.py:58 | definition: "university" or "institute" occurs in the lower-cased author; used by `DropInstitutionalFilter` |
| Extraction.DropInstitutional | file_utils.py:58 | definition: the list comprehension that drops those authors, in order; stated by `DropInstitutionalFilter` |
| Extraction.DropInstitutionalFilter | file_utils.py:58 | exactly the authors not mentioning "university" or "institute" (case-insensitively) are kept, and no duplicate is introduced |
| Extraction.SetToList | file_utils.py:57-59 | `list(set)`: every element exactly once, in some order |
| Extraction.ScanLines | file_utils.py:40-53 | the line loop with its `break` collects exactly the name and organisation matches of the lines before the first containing "Abstract", in line order |
| Extraction.DistinctPeople | file_utils.py:56-59 | the authors are the distinct names not mentioning a university or institute, the organizations the distinct organisation matches that are not authors |
| Extraction.ExtractAuthorsAndOrganizations | file_utils.py:25-61 | the call fails exactly when there is no page (IndexError) or the first page has no text (ValueError); otherwise the authors are the distinct name matches on the scanned lines that mention no university or institute, and the organizations the distinct organisation matches there that are not among the authors |
| Summaries.StripHeader | summary_utils.py:13-16 | definition: the page content after the header check; stated by `StripHeaderDropsFiveLines` |
| Summaries.StripHeaderDropsFiveLines | summary_utils.py:13-16 | a page with an "Abstract" line among its first five is kept; otherwise it becomes exactly what follows its fifth "\n" (nothing when it has at most five lines) |
| Summaries.StripHeaders | summary_utils.py:12-16 | every page's content is replaced in place by its stripped form |
| Summaries.Matching | summary_utils.py:47-50 | definition: the chunks whose lower-cased text contains the lower-cased option; stated by `MatchingFilter` and `MatchingAppend` |
| Summaries.MatchingFilter | summary_utils.py:47-50 | an option collects exactly the chunks whose lower-cased text contains the lower-cased option, each as often as it occurs |
| Summaries.MatchingAppend | summary_utils.py:47-50 | the chunk filter distributes over concatenation, so the collected chunks are in chunk order |
| Summaries.Collect | summary_utils.py:47-50 | definition: the matching chunks joined with single spaces; stated by `CollectBlank` |
| Summaries.CollectBlank | summary_utils.py:47-51 | the collected text of an option is blank exactly when every chunk mentioning it is blank |
| Summaries.SectionText | summary_utils.py:45-52 | definition: the text of the first option whose collection is not blank, else that of the last option; stated by `SectionTextFirstHit` |
| Summaries.SectionTextFirstHit | summary_utils.py:46-52 | the chosen text is non-blank exactly when some option's collection is, and then it is the collection of the first such option |
| Summaries.SelectSectionText | summary_utils.py:45-52 | the options loop with its early `break` computes the chosen section text |
| Summaries.Entry | summary_utils.py:56-64 | definition: the summary of a non-blank section text, or "No content found for {title}."; stated by `MissingSectionDefault` and `SummaryMapValues` |
| Summaries.NoContent | summary_utils.py:64 | definition: "No content found for {title}."; stated by `MissingSectionDefault` |
| Summaries.SummaryFold | summary_utils.py:43-64 | definition: the section loop for any per-section body, stopping at the first failure; stated by `SummaryFoldKeys`, `SummaryFoldFails`, `SummaryFoldDomain`, `SummaryFoldValues` and `SummaryFoldStopsAtFailure` |
| Summaries.SummaryFoldFails | summary_utils.py:43-64 | the loop fails exactly when the body fails on some section |
| Summaries.SummaryFoldDomain | summary_utils.py:43-64 | a successful loop has exactly the section titles as keys |
| Summaries.SummaryMap | summary_utils.py:43-64 | definition: the fold of `Entry` over the sections; stated by `SummaryMapValues` and `FillSummaries` |
| Summaries.SummaryFoldKeys | summary_utils.py:43-64 | for any per-section loop body, the loop fails exactly when the body fails on some section; otherwise the keys are exactly the section titles |
| Summaries.SummaryFoldValues | summary_utils.py:43-64 | with distinct titles, a successful loop maps each title to what the body stored for its own section |
| Summaries.SummaryMapValues | summary_utils.py:43-64 | the call fails exactly when the summariser fails on some section; otherwise the keys are exactly the section titles and, with distinct titles, each maps to its own section's summary, or to the missing-content string |
| Summaries.MissingSectionDefault | summary_utils.py:62-64 | a section whose options all collect blank text gets "No content found for {title}." |
| Summaries.SummaryFoldStopsAtFailure | summary_utils.py:57-60 | once the summariser fails, later sections make no difference |
| Summaries.SummarizesNonBlank | summary_utils.py:56-60 | definition: the summariser is defined on every non-blank text, and nothing more is known, so no call on blank text verifies |
| Summaries.SectionCall | summary_utils.py:56-60 | definition: the one question put for a section, (title, chosen text), or none when that text is blank; used by `SummaryCalls` |
| Summaries.CallsFold | summary_utils.py:43-64 | definition: for any per-section body, the questions the loop puts, in section order, up to and including the section whose body fails; stated by `CallsFoldStopsAtFailure` |
| Summaries.CallsFoldStopsAtFailure | summary_utils.py:57-60 | once the loop body fails, no later section is put to the summariser |
| Summaries.SummaryCalls | summary_utils.py:43-64 | definition: `CallsFold` with the real loop body, the questions put to the summariser; stated by `CallsFoldStopsAtFailure` and `FillSummaries` |
| Summaries.FillSummaries | summary_utils.py:43-64 | the section loop computes the specified dictionary; its questions to the summariser are exactly, in order, each non-blank section's (title, chosen text) up to and including the first failure; and since the summariser is defined only on non-blank text, no other call could verify |
| Summaries.SummarizeSections | summary_utils.py:8-66 | headers are stripped in place, then the dictionary is the specified one over the splitter's chunks of the stripped pages, with exactly the specified questions put to the summariser, none of them on blank text |
| Server.OrDefault | app.py:119-124 | definition: `x or default` on strings; stated field by field by `DocumentData` |
| Server.AnswerQuestionAsWritten | app.py:165-170 | definition: the call as written raises TypeError for the unexpected keyword `metadata_only`; stated by `AskAsWrittenNeverAnswers` |
| Server.AnswerQuestion | qa_utils.py:26-29 | definition: the call without the keyword, the chain's answer or its failure; stated by `AskCorrectedAnswers` and `AskBookkeeping` |
| Server.ResolveId | app.py:151 | definition: `request.conversation_id or str(uuid.uuid4())`; stated by `ResolveIdChoice` |
| Server.Register | app.py:152-153 | definition: create the history on first use; stated by `AskBookkeeping` |
| Server.AskTransition | app.py:149-183 | definition of one /ask request: registration, then 500 for an unavailable index, a failed chain creation or a raising answer, else the turn appended; stated by `AskBookkeeping`, `AskAsWrittenNeverAnswers` and `AskCorrectedAnswers`, and implemented by `ConversationStore.Ask` |
| Server.AskBookkeeping | app.py:149-183 | the resolved id is registered whatever follows, other conversations are untouched, every failure is a 500 that leaves only the registration, and an answered request appends exactly its turn at the end and returns the resolved id; answered exactly when index, chain and answer succeed |
| Server.ResolveIdChoice | app.py:151 | a supplied non-empty id is used; an absent or empty one is replaced by the fresh id |
| Server.AskAsWrittenNeverAnswers | app.py:165-170 | as written, every request fails with 500 and only registers the id |
| Server.AskCorrectedAnswers | app.py:164-178 | with the keyword dropped, a request is answered exactly when index, chain and answer succeed, and the store gains exactly that turn |
| Server.AnsweredRunAppendsInOrder | app.py:164-173 | a run of answered questions on one conversation appends their turns in asking order and leaves other conversations alone |
| Server.ConversationStore.constructor | app.py:91 | the store starts empty |
| Server.ConversationStore.Ask | app.py:146-183 | the store and the response after one request are those of the specified transition |
| Server.ConversationStore.Clear | app.py:237-242 | only the given key is removed (nothing when absent) and the status is always "success" |
| Server.ClearThenAsk | app.py:152-153 | after a clear, the next answered question starts a history of exactly one turn |
| Server.DocumentData | app.py:117-125 | the record fails exactly when "content" is missing; otherwise it carries the file id, and each field (title, the ", "-joined authors, organizations and emails, the abstract, the content) is that value when it is non-empty and its default when it is "" |
| Server.UploadPaper | app.py:98-144 | a filename not ending in ".pdf" is rejected with 400 and only then; for a ".pdf" name each failing step gives its own 500 cause (save, load, spaCy, open, no page, no first-page text, missing "content"); when every step succeeds the upload succeeds, and it returns the five fields of the record handed to indexing, built from the extractions |
| Server.MetadataOf | app.py:134-140 | definition: the `DocumentMetadata` of the record's id, title, authors, organizations and emails; stated by `UploadPaper`, `UploadedRecordIsIndexed` and `ListingRecoversUpload` |
| Server.UploadAsWrittenFails | app.py:124 | as written, building the record always raises KeyError, so every upload that gets this far is a 500 |
| Server.UploadWithContentSucceeds | app.py:117-125 | with "content" set, the record is built with the first line as title and the page text as full content |
| Server.UploadedRecordIsIndexed | app.py:127-140 | indexing the uploaded record yields first the four metadata entries whose ids are `{id}_title`, ... and whose texts are exactly the returned fields |
| Server.FirstSeenIds | app.py:202-205 | definition: the truthy document ids in order of first appearance; stated by `FirstSeenIdsMembers` and `FirstSeenIdsOrder` |
| Server.FirstMatch | app.py:207-221 | definition: `next(...)` over the matches for one id and type; stated by `FirstMatchAt` and `FieldTextFirst` |
| Server.FieldText | app.py:225-228 | definition: the first match's "text" or the default; stated by `FieldTextFirst` |
| Server.Record | app.py:223-229 | definition: the `DocumentMetadata` built for one id; stated by `ListingOfOneDocument` |
| Server.Listing | app.py:201-231 | definition: one record per first-seen id; stated by `ListDocuments`, `ListingOfOneDocument` and `ListingRecoversUpload` |
| Server.ListDocuments | app.py:185-235 | no index or a failed query lists nothing; otherwise the loop lists one record per first-seen document id, as specified |
| Server.FirstSeenIdsMembers | app.py:203-205 | listed ids are distinct, and an id is listed exactly when some match carries it as a truthy `document_id` |
| Server.FirstSeenIdsOrder | app.py:203-205 | the listing is in first-seen order: of two listed ids, some match of the earlier one comes before every match of the later one |
| Server.FieldTextFirst | app.py:207-228 | each field comes from the earliest match of that document and type (its "text", else the default), and is the default when there is none |
| Server.FirstMatchAt | app.py:207-221 | the match `next(...)` picks is the earliest one with that document id and type |
| Server.FirstSeenIdsOfOne | app.py:203-205 | matches all carrying one id list it once |
| Server.MatchesOfDocument | app.py:203-221 | the matches of one indexed document carry its id, and its four field entries come first |
| Server.ListingOfOneDocument | app.py:185-235 | matches that all carry one document's id and start with its four field entries list exactly that document's record |
| Server.ListingRecoversUpload | app.py:185-235 | listing the entries of one indexed document gives exactly that document's five upload fields |
| Text.IsSpace | embedding_utils.py:65 | definition: the whitespace test behind `strip()` and `split()`, ASCII whitespace and U+001C to U+001F (see "Left out"); used by `IsBlank`, stated by `WordsShape` |
| Text.IsBlank | embedding_utils.py:65 | definition: `s.strip() == ""`, every character whitespace |
| Text.Lower | embedding_utils.py:43 | `s.lower()` keeps the length; ASCII letters only (see "Left out") |
| Text.LowerConcat | summary_utils.py:49 | lowering distributes over concatenation |
| Text.LowerIdempotent | embedding_utils.py:43 | lowering twice is lowering once |
| Text.Contains | embedding_utils.py:44 | definition: Python's `sub in s` on strings; stated by `ContainsAt` |
| Text.ContainsAt | embedding_utils.py:44 | `sub in s` holds exactly when `sub` occurs at some position of `s` |
| Text.ContainsExtend | embedding_utils.py:44 | text appended after a match keeps the match |
| Text.EndsWith | app.py:101 | definition: `s.endswith(suffix)` |
| Text.Join | file_utils.py:15 | definition: `sep.join(parts)`; stated by `JoinAppend` and `JoinSplit` |
| Text.JoinAppend | summary_utils.py:16 | joining a concatenation of two non-empty lists puts one separator between the two joins |
| Text.Split | file_utils.py:20 | `s.split(sep)` never returns an empty list |
| Text.JoinSplit | summary_utils.py:13-16 | joining the pieces of `s.split(sep)` with `sep` gives `s` back |
| Text.SplitPiecesFree | file_utils.py:20 | no piece of `s.split(sep)` contains `sep` |
| Text.SplitFirst | file_utils.py:20 | the first piece is the prefix of `s` before its first separator |
| Text.Words | file_utils.py:21 | definition: `s.split()`, the maximal non-whitespace runs in order; stated by `WordsShape` |
| Text.WordsShape | file_utils.py:21 | every word is non-empty, free of whitespace and made of characters of the text |
| Text.NatToString | embedding_utils.py:173 | `str(i)` is a non-empty string of decimal digits |
| Text.NatToStringInjective | embedding_utils.py:173 | distinct numbers have distinct renderings, so chunk ids differ |

## Left out

- File and network I/O, PDF parsing, the sentence encoder, Pinecone, OpenAI/LangChain and the text splitter: they are parameters (oracles).
- spaCy (file_utils.py:18): only whether `nlp(text)` raises is modelled, as the `nlpRaised` parameter of `Server.UploadPaper`; its result is unused by the code. `Extraction.ParseAndExtract` models the dictionary `parse_and_extract` returns when that call does not raise.
- The two regular expressions at file_utils.py:44-52: the matchers are uninterpreted functions from a line to its list of matches.
- Embedding values: vectors are sequences of reals whose only modelled properties are length and the zero vector.
- pdfplumber returning `None` for a page without text is modelled as the empty string, which the code treats the same way.
- Server.ConversationStore.Ask: concurrency between requests and FastAPI's async scheduling are not modelled; requests are handled one at a time.
- Server.UploadPaper: the background task is returned as a job, not run; writing the file is the `saved` oracle; the `detail` strings of HTTP errors are represented by their cause.
- Server.ListDocuments: the query's `top_k=100` limit and its match order are whatever the query oracle returns; metadata values other than strings are not modelled.
- Summaries.SummaryMap: Python dictionaries keep insertion order; the Dafny `map` does not, so the order of the returned summaries is not modelled.
- Summaries.StripHeaders: the documents are the page texts in an array; the other fields of the LangChain documents, and aliasing between them, are not modelled.
- Text.Lower and Text.IsSpace: only ASCII letters are lowered and only ASCII whitespace (with U+001C to U+001F) counts as whitespace; Python's full Unicode tables are not modelled.
- Logging, tqdm progress, configuration loading (config.py), the CLI demo (main.py) and the browser UI (static/js/main.js) are not part of this model.

## Findings

| source | as written | input that shows it | evidently intended | confidence | as-written member | corrected member |
|---|---|---|---|---|---|---|
| app.py:165-170 | `answer_question(qa_chain, question, chat_history, metadata_only=...)`, but qa_utils.py:26 declares only three parameters, so the call raises TypeError | any /ask request with the index and the chain available | call `answer_question` without the keyword (or give it the parameter) | not executed | Server.AskAsWrittenNeverAnswers | Server.AskCorrectedAnswers |
| app.py:124 | reads `extracted_info["content"]`, a key `parse_and_extract` (file_utils.py:19-22) never sets, so KeyError | any upload of a ".pdf" file whose loaders succeed | `parse_and_extract` also returns the joined page text under "content" | not executed | Server.UploadAsWrittenFails | Server.UploadWithContentSucceeds |
