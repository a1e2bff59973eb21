# paperweave ingestion pipeline in Dafny

paperweave builds a Neo4j citation graph of arXiv papers in several stages:

- The arXiv metadata dump is loaded by two loaders. `arxiv_loader.py` sends one statement per author and category; `arxiv_loader_optimized.py` sends UNWIND batches.
- An incremental updater (`arxiv_updater.py`) harvests new and deleted records over OAI-PMH 2.0 (`oai_pmh_client.py`). It upserts them in batches and keeps an `UpdateLog` ledger.
- Five streaming loaders attach OpenAlex work ids to papers by DOI: the production, optimized, fast, ultra-fast and performance-test loaders.
- A citation loader adds `CITES` edges between papers whose OpenAlex ids both occur in the graph.
- A small set of pydantic records (`data_models/openalex.py`) describes the OpenAlex objects.

This project models that core in Dafny and proves properties of the model.

The Neo4j store is a value: `Graph.Store` is a graph plus a fault oracle.
- The graph holds papers keyed by `arxiv_id`, authors, categories, the `WROTE`, `HAS_CATEGORY` and `CITES` edge sets, and the optional `UpdateLog` node. A category's name is always its id, so categories are a set of ids.
- Every Cypher write statement is a `Graph.Stmt`. `Graph.Apply` gives its effect one clause at a time. Every UNWIND row matches against the graph as it stood before the statement, and where two rows SET the same property the later row wins.
- Each `session.run` consumes one entry of the fault oracle. A `true` entry makes that statement fail as a whole, which is how every store error path of the code is reached.
- Read queries (the DOI set, the OpenAlex id set, the ledger and the latest `update_date`) read the graph and never fail.

The code's loops and mutable state stay imperative:
- the harvest loop, the conversion and batch-preparation loops, the file loops and the full-dataset aggregation loops are `method`s with `while`/`for` loops;
- the two caching loaders are `class`es whose cache field is set once;
- each method is proved equal to a specification function. The lemmas then state what the code promises about that function.

Inputs the code reads from outside are parameters:
- server replies, one per request of the harvest;
- the lines of a file, each a decoded record or malformed;
- the list of part files per directory;
- the clocks: for the updater, `start` (the `datetime.now()` of the first-run fallback), `stamp` (Neo4j's `datetime()` in the batch MERGE) and `finish` (the `datetime.now()` recorded after the harvest).

Two behaviours of the code are worth knowing when reading the model:

- In `openalex_loader.py`, `fast_openalex_loader.py` and `performance_test_loader.py`, the flush inside the line loop sits inside the per-line `try`. A store error there is swallowed by the per-line `except ... continue`, and the batch is not reset. It is sent again at the next work with a DOI: one candidate longer when that DOI passes the filter (`OpenAlexLoaders.Resubmitted`), and unchanged when `openalex_loader.py` filters it out, because the size check sits outside the filter (`OpenAlexLoaders.ResubmittedUnchanged`). Only a store error of the final remainder flush reaches the file-level handler. `arxiv_loader_optimized.py` behaves the same way (`ArxivLoaderOptimized.Resubmitted`).
- Neo4j refuses to store a list property that holds a null. A harvested record with a repeated element, one of them empty (`<dc:title>A</dc:title><dc:title/>`), has the title `['A', None]`. Its paper MERGE then raises, and the whole active batch is counted as errors (`Graph.NullInListRejected`, `ArxivUpdater.UnstorableBatchCounted`).
- `citation_loader.py` reports `count(*)` of the citation MERGE. This counts matched rows, not edges created, so a repeated batch reports the same number while adding no edge (`CitationLoader.CitationBatchTwice`).

## Model

| member | source | states |
|---|---|---|
| Common.StripLeftDrops | src/arxiv_updater.py:214 | `lstrip` keeps a suffix of the text and drops only whitespace; `Common.StripLeft` itself ensures the kept text starts with a non-whitespace character or is empty |
| Common.StripRightDrops | src/arxiv_updater.py:214 | `rstrip` drops only whitespace; `Common.StripRight` itself ensures it keeps a prefix that ends with a non-whitespace character or is empty |
| Common.Words | src/arxiv_updater.py:98 | `str.split()`: every token is non-empty and free of whitespace |
| Common.WordsOfJoin | src/arxiv_updater.py:98-101 | splitting words joined by single spaces gives the words back |
| Common.WordsCons | src/arxiv_updater.py:98 | a word followed by whitespace or the end of the text is the first token |
| Common.SplitOn | src/arxiv_updater.py:228 | `s.split(sep)` for one character: never empty, the pieces are free of `sep`, and joining them with `sep` gives `s` back |
| Common.SplitOnJoin | src/arxiv_updater.py:80 | splitting pieces joined by `sep` (the updater's `' '.join(sets)`) gives the pieces back |
| Common.LastPiece | src/oai_pmh_client.py:212 | `s.split(sep)[-1]` is free of `sep`, is the whole of `s` when there is no `sep`, and otherwise follows a `sep` at the end of `s` |
| Common.RemoveAllAbsent | src/production_openalex_loader.py:120 | `str.replace(pattern, "")` changes nothing when the pattern does not occur |
| Dates.Latest | src/arxiv_updater.py:50-52 | Cypher `MAX` over timestamps: `None` exactly for the empty set, otherwise a member that no other member is after |
| Dates.FormatYmd | src/oai_pmh_client.py:149-151 | `strftime('%Y-%m-%d')` is ten characters with `-` at positions 4 and 7 (its digits are fixed by `Dates.ParseFormatYmd`) |
| Dates.ParseYmd | src/arxiv_loader_optimized.py:56 | `strptime(s, '%Y-%m-%d')`: four year digits, then CPython's one- or two-digit month and day groups (a space-padded day too), nothing left over, and only valid calendar dates; the text is eight to ten characters and the year is its four digits |
| Dates.MonthField | src/arxiv_loader_optimized.py:56 | the `%m` group: a month 1 to 12 of one or two characters, followed by `-`; two characters are its two digits |
| Dates.DayField | src/arxiv_loader_optimized.py:56 | the `%d` group: a day 1 to 31 of one or two characters; two characters without a leading space are its two digits |
| Dates.ParseFormatYmd | src/arxiv_loader_optimized.py:56 | parsing the formatting of a valid date gives the date back |
| Dates.FormatParseYmd | src/arxiv_loader_optimized.py:56 | the parser normalises: an accepted text is eight to ten characters, the formatting of its date parses to the same date, and a ten-character text without a space-padded day is exactly that formatting |
| Dates.UnpaddedYmd | src/arxiv_loader_optimized.py:56 | `2020-1-5` parses to 5 January 2020 |
| Dates.SpacePaddedYmd | src/arxiv_loader_optimized.py:56 | `2020-01- 5` parses to 5 January 2020 |
| Dates.MonthOutOfRange | src/arxiv_loader_optimized.py:56 | a thirteenth month does not parse |
| Dates.DayOutOfRange | src/arxiv_loader_optimized.py:56 | a day `32` is read as `3` with `2` left over, so it does not parse |
| Dates.MinusDays | src/arxiv_updater.py:55 | `t - timedelta(days=n)`: when it does not overflow, a valid timestamp with the same time of day, on an earlier day for `n > 0` |
| Graph.LastRowForFound | src/arxiv_updater.py:240-252 | a key has a last UNWIND row exactly when some row carries it, and that row is one of the rows |
| Graph.MergeRowsEffect | src/arxiv_updater.py:240-252 | after the paper MERGE, every row's paper exists, carries its last row's properties and keeps its OpenAlex id; papers no row names are untouched |
| Graph.Apply | src/arxiv_updater.py:240-302 | Neo4j rejects a statement exactly when it is a paper MERGE with a row that lacks `arxiv_id` or SETs a list property holding a null, and only the ledger write changes the ledger |
| Graph.NullInListRejected | src/arxiv_updater.py:240-252 | a paper MERGE whose row has the title `['A', None]` is rejected |
| Graph.ApplyPreservesWellFormed | src/arxiv_updater.py:270-302 | no statement leaves a relationship without both of its endpoints |
| Graph.MergeRowsAdds | src/arxiv_loader_optimized.py:106-117 | every row's paper exists after the MERGE |
| Graph.MergeRowsKeeps | src/arxiv_updater.py:240-252 | a paper that existed before the MERGE still exists after it |
| Graph.MergeRowsTwice | src/arxiv_updater.py:240-252 | merging the same rows again only restamps `last_modified` |
| Graph.Run | src/citation_loader.py:211-224 | `session.run` fails when the oracle says so or Neo4j rejects the statement, and a failed statement changes nothing |
| Graph.RunAll | src/arxiv_loader.py:79-101 | statements run one after another until the first failure, never consuming more oracle entries than there are (its steps are stated by `Graph.RunAllCons` and `Graph.RunAllAppend`) |
| Graph.Execute | src/arxiv_loader.py:79-101 | the statements of one session are sent one by one and the first failure raises |
| Graph.RunAllAppend | src/arxiv_updater.py:240-302 | running two statement lists is the first, then the second unless the first failed |
| Graph.RunAllCons | src/arxiv_loader.py:93-101 | a session runs its first statement, and the rest only if that one succeeded |
| Graph.ApplyAllAppend | src/arxiv_updater.py:240-302 | applying two statement lists is applying the first, then the second to its result |
| Graph.MergePapersEffect | src/arxiv_updater.py:240-252 | the paper MERGE of rows that can be stored changes only the papers |
| Graph.MergeAuthorsEffect | src/arxiv_updater.py:255-259 | `MERGE (a:Author {name})` adds exactly the names and changes nothing else |
| Graph.MergeCategoriesEffect | src/arxiv_updater.py:262-267 | `MERGE (c:Category {id})` adds exactly the ids and changes nothing else |
| Graph.DeleteWroteEffect | src/arxiv_updater.py:273-278 | the WROTE delete removes exactly the WROTE edges into the listed papers |
| Graph.MergeWroteEffect | src/arxiv_updater.py:281-285 | with its author present, a WROTE row adds its edge exactly when its paper exists |
| Graph.DeleteHasCategoryEffect | src/arxiv_updater.py:290-295 | the HAS_CATEGORY delete removes exactly the HAS_CATEGORY edges out of the listed papers |
| Graph.MergeHasCategoryEffect | src/arxiv_updater.py:297-302 | with its category present, a HAS_CATEGORY row adds its edge exactly when its paper exists |
| Graph.MergeAuthorWroteEffect | src/arxiv_loader.py:93-101 | the per-author statement always adds the author, and adds the edge exactly when the paper exists |
| Graph.MergeCategoryHasCategoryEffect | src/arxiv_loader.py:114-123 | the per-category statement always adds the category, and adds the edge exactly when the paper exists |
| Graph.RunAllKeepsLedger | src/arxiv_updater.py:240-302 | statements other than the ledger write leave the ledger as it was, however far they get |
| Graph.RunAllFaultFree | src/arxiv_updater.py:240-302 | without faults, running statements is applying them |
| Graph.RunAllPrefix | src/arxiv_loader.py:79-101 | a session that failed part-way keeps the effect of every statement before the failure |
| Graph.RunAllGrows | src/arxiv_loader_optimized.py:105-150 | statements that delete nothing keep every node and relationship, however far they get |
| Graph.MergeRowsUnstampedTwice | src/arxiv_loader.py:50-60 | without a `last_modified` stamp, merging the same rows again changes no paper |
| Graph.DetachDeleteEffect | src/arxiv_updater.py:127-131 | DETACH DELETE removes the paper and every relationship touching it, and nothing else |
| Graph.DetachDeleteMissing | src/arxiv_updater.py:127-131 | deleting a paper that is not there leaves the graph as it was |
| Graph.SetOpenAlexIdsKeepsExisting | src/production_openalex_loader.py:177-183 | with `WHERE p.openalex_id IS NULL`, an id once set is never replaced |
| Graph.SetOpenAlexIdsEffect | src/openalex_loader.py:164-169 | a paper gets the id of the last row carrying its DOI (when the guard allows), and nothing but ids changes |
| Graph.MergeCitesEffect | src/citation_loader.py:211-220 | a CITES pair is present afterwards exactly when it was before or a row matches papers holding both ids |
| Graph.RecordUpdateEffect | src/arxiv_updater.py:57-64 | the ledger holds the recorded time and one more update than before (1 when there was none); papers and edges are unchanged |
| ArxivRecords.AuthorNames | src/arxiv_updater.py:208-223 | the kept names are non-empty, and each is the full name of one author entry, in order |
| ArxivRecords.AuthorNamesFrom | src/arxiv_loader_optimized.py:75-89 | the names from entry `i` on are entry `i`'s name when it is not empty, then the rest |
| ArxivRecords.FullNameEmpty | src/arxiv_updater.py:214-218 | an entry is dropped exactly when its first and last names are all whitespace and it has no suffix |
| ArxivRecords.StrippedNonEmpty | src/arxiv_updater.py:228 | the category tokens are the stripped, non-empty pieces of the split, in order |
| ArxivRecords.CategoryIdsOfJoin | src/arxiv_updater.py:80 | set specs free of whitespace, joined by single spaces, come back as the category ids unchanged |
| ArxivRecords.UpdateDateOf | src/arxiv_loader_optimized.py:52-58 | the stored date is nothing for a falsy field, midnight of the parsed day, or nothing when the text does not parse; a list raises |
| ArxivRecords.UpdateDateOfFormatted | src/arxiv_loader_optimized.py:53-58 | a `YYYY-MM-DD` field round-trips into the stored timestamp |
| ArxivRecords.DatesOkUpToAll | src/arxiv_loader_optimized.py:51-58 | a batch's rows convert without raising exactly when no record's date raises |
| ArxivRecords.RowsUpTo | src/arxiv_loader_optimized.py:60-71 | one MERGE row per record, in order, each carrying that record's fields |
| ArxivRecords.RowsStorable | src/arxiv_loader_optimized.py:60-71 | a batch's rows can be stored exactly when each record has an id and no list field holding a null |
| ArxivRecords.PrepareBatch | src/arxiv_loader_optimized.py:51-103 | the preparation loop gives a row per record and the author and category rows of each (`Err` when a date raises) |
| ArxivRecords.AddedWroteOf | src/arxiv_loader_optimized.py:134-141 | the WROTE rows add `(name, k)` exactly when `name` is a kept author of a record for `k` and paper `k` exists |
| ArxivRecords.AddedHasCategoryOf | src/arxiv_loader_optimized.py:143-150 | the HAS_CATEGORY rows add `(k, cat)` exactly when `cat` is a token of a record for `k` and paper `k` exists |
| ArxivRecords.RecordMerged | src/arxiv_loader_optimized.py:106-117 | every record's paper exists once the rows are merged |
| ArxivLoader.AuthorStatements | src/arxiv_loader.py:79-101 | one author statement per kept name, in order, each for the record's id |
| ArxivLoader.CategoryStatements | src/arxiv_loader.py:109-123 | one category statement per token, in order, each for the record's id |
| ArxivLoader.CreatePaper | src/arxiv_loader.py:39-70 | `create_paper` sends the one paper MERGE of the record's row |
| ArxivLoader.CreateAuthorsAndRelationships | src/arxiv_loader.py:72-101 | sends the author statements one by one, stopping at the first failure; an empty `authors_parsed` sends nothing |
| ArxivLoader.AuthorStatementsAppend | src/arxiv_loader.py:79-90 | the statements of two runs of names are the statements of each, in order |
| ArxivLoader.CreateCategoriesAndRelationships | src/arxiv_loader.py:103-123 | sends the category statements one by one, stopping at the first failure; an empty field sends nothing |
| ArxivLoader.LaterCategoriesIgnored | src/arxiv_loader.py:111-123 | once a category statement has failed, the tokens after it do not matter |
| ArxivLoader.LoadRecord | src/arxiv_loader.py:139-146 | the three calls of a line, in order, the first failure ending the line |
| ArxivLoader.AuthorStatementsEffect | src/arxiv_loader.py:93-101 | for an existing paper the author statements add the names and one WROTE edge each |
| ArxivLoader.CategoryStatementsEffect | src/arxiv_loader.py:114-123 | for an existing paper the category statements add the tokens and one HAS_CATEGORY edge each |
| ArxivLoader.RecordStatementsEffect | src/arxiv_loader.py:39-123 | the statements of a record that can be stored (an id, no list field holding a null) succeed and leave the paper, its authors and its categories added |
| ArxivLoader.RecordRunSucceeded | src/arxiv_loader.py:137-148 | a line that went through had a date that parsed and a record that can be stored, and wrote its paper, its authors and its categories |
| ArxivLoader.RecordRunFaultFree | src/arxiv_loader.py:137-148 | when the database does not fail, a line goes through exactly when its date does not raise and its record can be stored: it has an id and no list field holding a null |
| ArxivLoader.PaperWithoutEdges | src/arxiv_loader.py:137-171 | a line that raises at its first author leaves its paper written and no new WROTE edge, and is skipped |
| ArxivLoader.ReloadIdempotent | src/arxiv_loader.py:50-123 | loading the same record again after it went through changes nothing |
| ArxivLoader.RecordRunGrows | src/arxiv_loader.py:39-123 | whatever happens, a line deletes nothing |
| ArxivLoader.LoadArxivData | src/arxiv_loader.py:125-171 | `load_arxiv_data` is the line-by-line fold: the count and the store it leaves |
| ArxivLoader.LoadLinesStopped | src/arxiv_loader.py:163-164 | after the limit breaks the loop, further lines change nothing |
| ArxivLoader.LoadCount | src/arxiv_loader.py:148-171 | only lines that went through are counted, so the count is at most the records decoded and at most a positive limit; the loop breaks only at the limit |
| ArxivLoader.LoadCountAll | src/arxiv_loader.py:148-164 | when every record goes through, every record decoded before the limit is counted |
| ArxivLoader.LoadGrows | src/arxiv_loader.py:125-171 | the first loader never removes a node or a relationship |
| ArxivLoaderOptimized.LoadStatementsEffect | src/arxiv_loader_optimized.py:105-150 | the statements of a batch whose rows can be stored succeed in the graph and leave the merged graph |
| ArxivLoaderOptimized.ProcessPaperBatch | src/arxiv_loader_optimized.py:38-150 | `process_paper_batch`: nothing for an empty batch; otherwise its rows prepared and its five statements sent in order |
| ArxivLoaderOptimized.BatchRunSucceeded | src/arxiv_loader_optimized.py:105-150 | a non-empty batch that went through had dates that parsed and rows that can be stored, succeeded at every statement and left the merged graph |
| ArxivLoaderOptimized.BatchRunFaultFree | src/arxiv_loader_optimized.py:51-117 | when the database does not fail, a batch goes through exactly when no date raises and every record can be stored: it has an id and no list field holding a null |
| ArxivLoaderOptimized.BatchRunGrows | src/arxiv_loader_optimized.py:105-150 | whatever happens, a batch deletes nothing |
| ArxivLoaderOptimized.LoadedPaper | src/arxiv_loader_optimized.py:106-117 | a paper the batch names carries the fields of its last record, with `last_modified` and its OpenAlex id kept; other papers are untouched |
| ArxivLoaderOptimized.LoadedWrote | src/arxiv_loader_optimized.py:134-141 | after the batch, `name` wrote `k` exactly when it did before or a record of the batch for `k` lists it: old edges persist |
| ArxivLoaderOptimized.LoadedHasCategory | src/arxiv_loader_optimized.py:143-150 | after the batch, `k` has `cat` exactly when it did before or a record of the batch for `k` lists it |
| ArxivLoaderOptimized.MergedTwice | src/arxiv_loader_optimized.py:105-150 | merging the same batch twice leaves the graph of the first pass |
| ArxivLoaderOptimized.LoadTwice | src/arxiv_loader_optimized.py:105-150 | loading the same batch again after it went through changes nothing |
| ArxivLoaderOptimized.LoadArxivData | src/arxiv_loader_optimized.py:152-198 | `load_arxiv_data` is the line fold followed by the remainder flush |
| ArxivLoaderOptimized.LoadLinesStopped | src/arxiv_loader_optimized.py:186-187 | after the loop breaks, further lines change nothing |
| ArxivLoaderOptimized.LoadCount | src/arxiv_loader_optimized.py:162-191 | the count is the number of records decoded before the loop broke (all of them when it did not), and it breaks only at the limit |
| ArxivLoaderOptimized.LoadRead | src/arxiv_loader_optimized.py:162-198 | when every batch goes through, the batches sent and the pending one are exactly the records read, in order |
| ArxivLoaderOptimized.LoadSizes | src/arxiv_loader_optimized.py:169-187 | when every batch goes through, each batch sent is full, the pending one is not, and a positive limit breaks the loop as soon as it is reached |
| ArxivLoaderOptimized.Resubmitted | src/arxiv_loader_optimized.py:169-194 | a batch that raises is kept and sent again, one record longer, with the next record |
| ArxivLoaderOptimized.LimitSkippedOnFailure | src/arxiv_loader_optimized.py:169-194 | the limit is checked only after a batch that did not raise: with batch size 1 and every batch raising, every record is read whatever the limit |
| ArxivLoaderOptimized.LoadGrows | src/arxiv_loader_optimized.py:152-198 | the optimized loader never removes a node or a relationship, even when it raises |
| OaiPmh.ArgNameInjective | src/oai_pmh_client.py:142-153 | distinct arguments have distinct names |
| OaiPmh.DayOf | src/oai_pmh_client.py:149-151 | the `from`/`until` text of a timestamp is the `YYYY-MM-DD` formatting of its day |
| OaiPmh.ListRecordsArgs | src/oai_pmh_client.py:142-153 | a continuation carries exactly verb and token; a first request carries verb and prefix, and `from`/`until`/`set` exactly when supplied |
| OaiPmh.ErrorOf | src/oai_pmh_client.py:69-73 | the error's code and text, `unknown` and `No error message` when missing |
| OaiPmh.MakeRequest | src/oai_pmh_client.py:58-82 | the document unless the request failed or the document holds an error element, in which case that error, the first one first |
| OaiPmh.ArxivIdOf | src/oai_pmh_client.py:210-213 | the text after the last `:`, and nothing when the identifier has no `:` |
| OaiPmh.DcBase | src/oai_pmh_client.py:203-213 | the record starts with identifier, datestamp and status, plus `arxiv_id` when the identifier has a colon |
| OaiPmh.ParseDublinCore | src/oai_pmh_client.py:201-234 | the loop over the Dublin Core children leaves the closed-form fold of the tags, then `sets` |
| OaiPmh.ParseRecords | src/oai_pmh_client.py:158-162 | each record element parsed by `_parse_record` as written (`OaiPmh.ParseRecordAsWritten`) in order, the ones that give nothing dropped |
| OaiPmh.ListRecords | src/oai_pmh_client.py:130-168 | the arguments sent, and the page returned (the records `_parse_record` as written gives, and the token), or the exception |
| OaiPmh.HarvestIncremental | src/oai_pmh_client.py:236-283 | the loop follows the `(request_count, resumption_token)` machine over the replies; it ends exactly on an empty page or a page without token; the pages yielded are the non-empty pages in order |
| OaiPmh.ContinuationParams | src/oai_pmh_client.py:142-153 | a continuation request is exactly verb and token, and a first request has no token, `until` or `set` |
| OaiPmh.ErrorDocumentHasNoPage | src/oai_pmh_client.py:69-73 | a response with an error element yields no page, only its error |
| OaiPmh.RetryRepeatsRequest | src/oai_pmh_client.py:277-281 | after a failure, the retry sends the same token, count and arguments, and pauses in the same way |
| OaiPmh.CountIsSuccesses | src/oai_pmh_client.py:254-264 | the count before a request is the number of earlier successful requests, and a one-second pause precedes it exactly when that number is a positive multiple of 4 |
| OaiPmh.YieldedPagesNonEmpty | src/oai_pmh_client.py:266-272 | every yielded page is non-empty and comes from one successful attempt |
| OaiPmh.ErrorsNeverEnd | src/oai_pmh_client.py:277-281 | when every reply is an error, nothing is yielded and the harvest never ends, retrying on every reply |
| OaiPmh.FoldElementsField | src/oai_pmh_client.py:216-226 | folding leaves each named field in its closed form and fields no element names untouched |
| OaiPmh.DublinCoreField | src/oai_pmh_client.py:216-226 | a tag seen once is a scalar, seen two or more times a list of its texts in document order |
| OaiPmh.DublinCoreKeys | src/oai_pmh_client.py:210-232 | an active record's `sets` are the header's set specs in order; unless a Dublin Core element is itself named `arxiv_id`, it has `arxiv_id` exactly when the identifier has a colon, and then the text after the last colon |
| OaiPmh.DeletedRecordShape | src/oai_pmh_client.py:178-183 | a deleted header gives exactly identifier, datestamp and status `deleted`; the metadata is not read |
| OaiPmh.NoRecordCases | src/oai_pmh_client.py:173-195 | without a header, metadata or `oai_dc:dc`, a record element gives nothing |
| ArxivUpdater.LastUpdateTimestamp | src/arxiv_updater.py:29-55 | the ledger's time when there is a ledger, else the latest paper `update_date`, else a week before the clock (`None` on overflow) |
| ArxivUpdater.LedgerDrivesNextRun | src/arxiv_updater.py:39-64 | the time a run records is the time the next run harvests from |
| ArxivUpdater.ParseCreators | src/arxiv_updater.py:96-104 | one entry per creator with at least one token, in order |
| ArxivUpdater.ConvertOaiRecord | src/arxiv_updater.py:66-122 | `convert_oai_record_to_paper_data`: the converted record, or nothing where the conversion raises |
| ArxivUpdater.ConvertPage | src/arxiv_updater.py:318-322 | the records of a page that convert, in order, the others dropped |
| ArxivUpdater.ConvertDeleted | src/arxiv_updater.py:69-73 | a deleted record converts to its id and status `deleted` alone |
| ArxivUpdater.ConvertActive | src/arxiv_updater.py:76-88 | an active record converts to a record that is not deleted and has no DOI, journal reference, report number or licence |
| ArxivUpdater.CreatorEntryShape | src/arxiv_updater.py:98-104 | a creator yields an entry exactly when it has a token; the entry has three fields and an empty suffix |
| ArxivUpdater.CreatorSplit | src/arxiv_updater.py:98-102 | with two or more tokens, the last token is the surname and the others joined by single spaces the given names |
| ArxivUpdater.CreatorNameRoundTrip | src/arxiv_updater.py:214-216 | the display name built from a creator's entry is the creator with whitespace normalised |
| ArxivUpdater.Partition | src/arxiv_updater.py:149-150 | the deleted and the active records split the batch: each record lands in exactly one |
| ArxivUpdater.DeletePapers | src/arxiv_updater.py:153-159 | the deletion loop: one DETACH DELETE per deleted record, counted as deleted or as an error |
| ArxivUpdater.DeleteRunCounts | src/arxiv_updater.py:153-159 | deleted plus errors is the number of deleted records |
| ArxivUpdater.DeleteRunFaults | src/arxiv_updater.py:153-159 | every deletion consumes one outcome, and without faults none is an error, whether or not the paper exists |
| ArxivRecords.Seconds | src/arxiv_updater.py:273-278 | the paper ids of the author relationship rows (the `paper_ids` whose WROTE edges are removed), one per row, in order |
| ArxivRecords.Firsts | src/arxiv_updater.py:289-295 | the paper ids of the category relationship rows (the `paper_ids` whose HAS_CATEGORY edges are removed), one per row, in order |
| ArxivUpdater.ActiveStatementsEffect | src/arxiv_updater.py:240-302 | the statements of a batch whose rows can be stored succeed in the graph and leave the reconciled graph |
| ArxivUpdater.ProcessActivePapers | src/arxiv_updater.py:172-302 | `_process_active_papers_batch`: the rows prepared and the seven statements sent in order |
| ArxivUpdater.UpsertPaperBatch | src/arxiv_updater.py:141-170 | `upsert_paper_batch`: the deletions, then the active batch, with its counts |
| ArxivUpdater.UpsertCounts | src/arxiv_updater.py:143-168 | every record is counted exactly once as updated, deleted or an error; an empty batch counts nothing and changes nothing |
| ArxivUpdater.ActiveRunSucceeded | src/arxiv_updater.py:240-302 | a batch that went through had dates that parsed and rows that can be stored, succeeded at every statement and left the reconciled graph |
| ArxivUpdater.UnstorableActiveFails | src/arxiv_updater.py:240-252 | a batch with a record that cannot be stored raises at the paper MERGE, whatever the database does, and writes nothing |
| ArxivUpdater.UnstorableBatchCounted | src/arxiv_updater.py:158-166 | then every active record of the batch is counted as an error and none as updated |
| ArxivUpdater.WroteIdsSupplied | src/arxiv_updater.py:270-278 | the papers whose WROTE edges are removed are those the batch supplies author names for |
| ArxivUpdater.CategoryIdsSupplied | src/arxiv_updater.py:288-295 | the papers whose HAS_CATEGORY edges are removed are those the batch supplies categories for |
| ArxivUpdater.WroteReconciled | src/arxiv_updater.py:270-285 | a paper the batch supplies authors for is written by exactly the authors of its records in the batch; any other paper keeps its WROTE edges |
| ArxivUpdater.HasCategoryReconciled | src/arxiv_updater.py:288-302 | a paper the batch supplies categories for has exactly the categories of its records in the batch; any other paper keeps its HAS_CATEGORY edges |
| ArxivUpdater.PapersMerged | src/arxiv_updater.py:240-252 | a paper the batch names carries the fields of its last record, `last_modified` stamped and its OpenAlex id kept; other papers are untouched |
| ArxivUpdater.UpsertClearsDoi | src/arxiv_updater.py:85 | every paper a batch of converted records upserts is left without a DOI |
| ArxivUpdater.ReconciledTwice | src/arxiv_updater.py:240-302 | reconciling the same batch twice only restamps `last_modified` |
| ArxivUpdater.ReplaceWroteTwice | src/arxiv_updater.py:270-285 | replacing the same WROTE rows twice leaves the edges of the first pass |
| ArxivUpdater.ReplaceHasCategoryTwice | src/arxiv_updater.py:288-302 | replacing the same HAS_CATEGORY rows twice leaves the edges of the first pass |
| ArxivUpdater.RerunIdempotent | src/arxiv_updater.py:240-302 | running a batch again after it went through leaves the same papers, authors, categories and edges; only `last_modified` is restamped |
| ArxivUpdater.ConvertedPages | src/arxiv_updater.py:318-322 | one converted batch per harvested page, each the page's records that convert |
| ArxivUpdater.ProcessHarvest | src/arxiv_updater.py:316-328 | the batch loop: empty batches skipped, the others upserted in order and their stats summed |
| ArxivUpdater.RunIncrementalUpdate | src/arxiv_updater.py:304-343 | raises with the store unchanged when the last update time at `start` overflows; otherwise the harvest from that time, the converted batches in order stamped `stamp`, then the ledger write of `finish` only when the harvest completed |
| ArxivUpdater.UpsertKeepsLedger | src/arxiv_updater.py:141-170 | an upsert never writes the ledger |
| ArxivUpdater.RunLedger | src/arxiv_updater.py:331-343 | a completed run whose ledger write went through records the clock `finish` read after the harvest and one more update; any other run, raising included, leaves the ledger as it was |
| ArxivUpdater.RunCounts | src/arxiv_updater.py:325-328 | the totals a run reports count every converted record once |
| ArxivUpdater.DeleteMissingCounts | src/arxiv_updater.py:127-139 | deleting a paper that is not there counts it as deleted, not as an error, and leaves the graph alone |
| ArxivUpdater.DeletedRecordKeepsPaperAsWritten | src/oai_pmh_client.py:178-183 | as written, a deleted record converts with no id, so its delete matches nothing and the paper stays although it is counted as deleted |
| ArxivUpdater.DeletedRecordRemovesPaper | src/arxiv_updater.py:69-73 | with the arXiv id taken from the deleted header, the delete removes the paper and counts it once |
| OpenAlexLoaders.LinesRead | src/production_openalex_loader.py:107-109 | the lines read before `line_num > max_records` breaks the loop: all of them without a limit |
| OpenAlexLoaders.ProcessBatchRuns | src/production_openalex_loader.py:167-189 | the batch function is the one id-setting statement, its failure caught (returning 0) or raised by variant; an empty batch sends nothing |
| OpenAlexLoaders.StoreBatch | src/production_openalex_loader.py:167-197 | the five batch functions: `count(p)` of the matched papers, 0 for an empty batch, a caught failure returning 0 |
| OpenAlexLoaders.ProcessFile | src/production_openalex_loader.py:92-165 | the shared file loop: the stats and store of the line fold followed by the remainder flush |
| OpenAlexLoaders.LoadLinesStopped | src/production_openalex_loader.py:108-109 | after the limit breaks the loop, further lines change nothing |
| OpenAlexLoaders.LoadCounts | src/production_openalex_loader.py:107-117 | whatever the store does, `total_works_processed` counts the works that validated and `works_with_doi` those with a DOI and an id; the loop breaks only at the limit |
| OpenAlexLoaders.LoadCandidates | src/production_openalex_loader.py:116-131 | when every batch goes through, the batches sent and the pending one are exactly the candidates of the lines read, in order |
| OpenAlexLoaders.UnfilteredCandidates | src/fast_openalex_loader.py:90-98 | without a filter every work with a DOI and an id is queued, so `works_with_doi` is the number of candidates |
| OpenAlexLoaders.FilteredCandidates | src/openalex_loader.py:101-110 | with the preloaded set only DOIs in it are queued, so there are at most `works_with_doi` candidates |
| OpenAlexLoaders.LoadSizes | src/production_openalex_loader.py:128-131 | when every batch goes through, each batch sent holds exactly `batch_size` candidates and the pending one fewer |
| OpenAlexLoaders.Resubmitted | src/openalex_loader.py:113-131 | a batch whose statement raises inside the line loop is kept and sent again with the next candidate |
| OpenAlexLoaders.ResubmittedUnchanged | src/openalex_loader.py:104-116 | when the next work with a DOI is filtered out, the kept batch is handed over again unchanged, since the size check sits outside the filter |
| OpenAlexLoaders.CatchingFlushSucceeds | src/production_openalex_loader.py:187-189 | the production and ultra-fast batch functions catch every store error, so every batch goes through |
| OpenAlexLoaders.CatchingFileBatches | src/production_openalex_loader.py:116-148 | with a catching batch function, the batches sent, with the remainder, are the works with a DOI and an id in file order, each but the last of exactly `batch_size` |
| OpenAlexLoaders.FlusherIdsOnly | src/production_openalex_loader.py:177-183 | each batch function only sets OpenAlex ids |
| OpenAlexLoaders.FileIdsOnly | src/production_openalex_loader.py:92-148 | a file run only sets ids on existing papers and creates or deletes nothing |
| OpenAlexLoaders.IdsOnlyKeepsDois | src/openalex_loader.py:54-69 | setting ids leaves the DOIs alone, so the cached DOI set never goes stale through the loader's own writes |
| OpenAlexLoaders.ProductionKeepsIds | src/production_openalex_loader.py:177-183 | over a whole production file an id once set is never overwritten |
| OpenAlexLoaders.OverwritingBatch | src/fast_openalex_loader.py:151-156 | without the `IS NULL` guard, a paper whose DOI a successful batch carries ends with that batch's id even when it had one |
| OpenAlexLoaders.FileStats | src/production_openalex_loader.py:107-148 | a file call counts one file and the works it read, whatever the store does |
| OpenAlexLoaders.FilesTotals | src/production_openalex_loader.py:320-324 | full-run totals are one per file, the per-file works and DOI counts summed whatever the store does, and the per-file matches summed, each file's counted against the store the earlier files left |
| OpenAlexLoaders.MatchesPerFileAt | src/production_openalex_loader.py:311-323 | the matches summed for file `i` are those its file call reports against the store the first `i` files leave |
| OpenAlexLoaders.ProcessDataset | src/production_openalex_loader.py:293-324 | the aggregation loops: every part file of every directory, in the given order, stats summed |
| OpenAlexLoaders.ProcessParts | src/production_openalex_loader.py:304-324 | the inner loop: one directory's part files processed whole, in order, their stats added to the running totals |
| OpenAlexLoaders.FilesIdsOnly | src/openalex_loader.py:229-249 | over a whole run the loaders only set ids, so the DOIs stay those of the start |
| OpenAlexLoaders.DatasetKeepsDois | src/openalex_loader.py:219-242 | the DOI set loaded before the first file stays equal to the store's DOIs for the whole run |
| OpenAlexLoaders.ProcessFileProduction | src/production_openalex_loader.py:92-165 | `process_file_production`: the shared loop, no filter, guarded and catching batch function |
| OpenAlexLoaders.ProcessFullDatasetProduction | src/production_openalex_loader.py:293-324 | the production aggregation over whole files |
| OpenAlexLoaders.ProcessFileFast | src/fast_openalex_loader.py:67-140 | `process_file_fast`: the shared loop, no filter, unguarded and raising batch function |
| OpenAlexLoaders.ProcessFullDatasetFast | src/fast_openalex_loader.py:215-238 | the fast aggregation over whole files |
| OpenAlexLoaders.ProcessFileUltraFast | src/ultra_fast_loader.py:76-144 | `process_file_ultra_fast`: the shared loop, no filter, unguarded and catching batch function |
| OpenAlexLoaders.UltraFastMain | src/ultra_fast_loader.py:249-266 | the aggregation loop of `main`, batch size 20000 |
| OpenAlexLoaders.OpenAlexLoader.constructor | src/openalex_loader.py:45-48 | a new loader has no cached DOI set |
| OpenAlexLoaders.OpenAlexLoader.LoadNeo4jDois | src/openalex_loader.py:54-73 | the store's non-empty DOIs, read once and then returned from the cache |
| OpenAlexLoaders.OpenAlexLoader.ProcessFileOptimized | src/openalex_loader.py:75-153 | `process_file_optimized`: the shared loop filtered by the cached set, unguarded and raising batch function |
| OpenAlexLoaders.OpenAlexLoader.ProcessFullDataset | src/openalex_loader.py:211-273 | the set is loaded once, before the first file, and every file uses it |
| OpenAlexLoaders.TestSingleFilePerformance | src/performance_test_loader.py:53-149 | the shared loop with batch size 1000, no filter, unguarded and raising batch function |
| OpenAlexLoaders.SelectedFirstParts | src/performance_test_loader.py:212-235 | at most the first part file of each directory, in order, and at most `max_files` files |
| OpenAlexLoaders.TestMultipleFiles | src/performance_test_loader.py:205-235 | the files tested are those selected, and the totals their per-file stats summed |
| OpenAlexLoaders.TestDirectory | src/performance_test_loader.py:213-235 | one directory: passed over when it is not a directory or `max_files` files are tested, otherwise its first part file, if any, is tested and counted, as the selection prescribes |
| OpenAlexLoaders.TestMultipleFilesCount | src/performance_test_loader.py:212-235 | `files_tested` ends as the smaller of `max_files` and the number of directories with a part file |
| OpenAlexLoaders.CleanDoiAbsent | src/production_openalex_loader.py:120 | a DOI without the prefix is left as it is |
| OpenAlexLoaders.CleanDoiLeading | src/production_openalex_loader.py:120 | a DOI with one leading prefix and no other occurrence loses exactly that prefix |
| OpenAlexLoaders.CleanDoiNotIdempotent | src/production_openalex_loader.py:120 | cleaning twice can differ from cleaning once: removing the prefix can join its surroundings into a new prefix |
| CitationLoader.CitePairsIn | src/citation_loader.py:154-160 | both ends of every queued pair are in the id set, the citing end the work's own id, the cited end one of its references |
| CitationLoader.CitePairsHas | src/citation_loader.py:154-160 | every reference in the set yields a pair, and in reference order: the pairs of the references before it come first, then its own |
| CitationLoader.CitePairsPrefix | src/citation_loader.py:154-160 | the pairs of the first references begin the pairs of all of them |
| CitationLoader.CitationBatchRuns | src/citation_loader.py:202-224 | the batch function is the one citation statement, 0 for an empty batch and 0 when the store fails |
| CitationLoader.CreateCitationBatch | src/citation_loader.py:202-230 | `_create_citation_batch`: the reported count and the store it leaves |
| CitationLoader.CitationBatchEffect | src/citation_loader.py:211-220 | a batch only adds CITES edges, each between the papers holding the two ids of one of its pairs |
| CitationLoader.CitationBatchTwice | src/citation_loader.py:211-220 | once a batch went through, sending it again adds no edge yet reports the same count |
| CitationLoader.CiteFile | src/citation_loader.py:134-183 | the file loop, with the id set loaded: the stats and store of the line fold followed by the remainder flush |
| CitationLoader.QueueReferences | src/citation_loader.py:154-160 | the inner loop appends the work's pairs to the batch and counts them |
| CitationLoader.CiteCounts | src/citation_loader.py:139-151 | whatever the store does, `total_works_processed` counts the works that validated and `works_with_references` the qualifying works; malformed lines count towards the limit; the loop breaks only at the limit |
| CitationLoader.CiteQueued | src/citation_loader.py:154-166 | `total_reference_pairs` is the number of pairs queued, and the batches sent then the pending one are the pairs of the qualifying works read, in file order |
| CitationLoader.PairsFromFile | src/citation_loader.py:148-160 | every queued pair joins a qualifying work read to one of its references, both ids in the set |
| CitationLoader.FilePairsHas | src/citation_loader.py:148-160 | every reference in the set of a qualifying work read is queued |
| CitationLoader.CiteSizes | src/citation_loader.py:163-166 | every batch sent holds at least `batch_size` pairs and the pending one fewer |
| CitationLoader.CiteBatchOvershoots | src/citation_loader.py:154-166 | a work with three references in the set read at batch size 2 is sent as one batch of three |
| CitationLoader.CitationBatchBounds | src/citation_loader.py:202-224 | a batch changes only CITES edges, adds at most the edges its pairs name and reports at most their count; exactly those when the store does not fail |
| CitationLoader.CiteFileEffect | src/citation_loader.py:134-186 | a file run changes only CITES edges, adds at most those the file's pairs name and reports at most their count; without failures exactly those |
| CitationLoader.HoldersOfId | src/citation_loader.py:107-114 | an id of the loaded set is held by at least one paper, and by exactly one when ids are unique |
| CitationLoader.CiteCountCovers | src/citation_loader.py:211-220 | `count(*)` is at least the number of pairs when every id is held, and exactly that when ids are unique |
| CitationLoader.CiteFileCounts | src/citation_loader.py:120-200 | with the set from the store and no failures, `successful_citations` is at least `total_reference_pairs`, and equal to it when ids are unique |
| CitationLoader.CiteFileStats | src/citation_loader.py:120-200 | a file call counts one file and what it read, whatever the store does |
| CitationLoader.CiteFilesTotals | src/citation_loader.py:333-338 | full-run totals are one per file, the per-file works, qualifying works and pairs summed whatever the store does, and the per-file created counts summed, each file's counted against the store the earlier files left |
| CitationLoader.CreatedPerFileAt | src/citation_loader.py:329-338 | the created count summed for file `i` is the one its file call reports against the store the first `i` files leave |
| CitationLoader.CiteFilesEffect | src/citation_loader.py:306-338 | a whole run only adds CITES edges, so the id set loaded at its start stays the store's; without failures the created count covers the pairs |
| CitationLoader.CiteDataset | src/citation_loader.py:316-338 | every part file of every directory, whole files, stats summed |
| CitationLoader.CitationLoader.constructor | src/citation_loader.py:65 | a new loader has no cached id set |
| CitationLoader.CitationLoader.LoadNeo4jOpenalexIds | src/citation_loader.py:99-118 | the cached set if there is one, otherwise the store's non-empty OpenAlex ids, then cached |
| CitationLoader.CitationLoader.ProcessFileCitations | src/citation_loader.py:120-200 | `process_file_citations` with the set loaded through the cache |
| CitationLoader.CitationLoader.ProcessFullDatasetCitations | src/citation_loader.py:290-345 | the ids loaded once, then every part file of every directory; each file finds the set cached |
| CitationLoader.FreshRunCounts | src/citation_loader.py:290-345 | a fresh loader's run uses the store's ids at the start, which stay the store's; without failures every pair found is matched at least once |
| OpenAlexModels.ParseWorkRequired | src/data_models/openalex.py:89-96 | a validated work has its four required fields `id`, `type`, `updated_date` and `created_date`, each a string |
| OpenAlexModels.ParseWorkDefaults | src/data_models/openalex.py:89-123 | a field left out takes its default: `None` for `doi`, `[]` for `referenced_works`, 0 for the counts |
| OpenAlexModels.MinimalWork | src/data_models/openalex.py:89-123 | the four required fields alone make a work with every default |
| OpenAlexModels.WorkNeedsRequired | src/data_models/openalex.py:89-123 | leaving out a required field fails validation |
| OpenAlexModels.WorkIgnoresExtra | src/data_models/openalex.py:87-123 | keys outside every field `OpenAlexWork` declares, the seven nested-record fields included, change nothing |
| OpenAlexModels.NestedShapeRejected | src/data_models/openalex.py:99-117 | a nested-record list that is not a list, or an optional nested record that is neither `null` nor an object, fails validation |
| OpenAlexModels.WorkRoundTrip | src/data_models/openalex.py:87-123 | dumping a work and validating the dump gives the work back |
| OpenAlexModels.ParseInstitutionDefaults | src/data_models/openalex.py:22-36 | an institution needs `id` and `display_name`; the rest default to `None` and `lineage` to `[]` |
| OpenAlexModels.InstitutionRoundTrip | src/data_models/openalex.py:22-36 | dumping an institution and validating the dump gives it back |
| OpenAlexModels.ParseOrganizationDefaults | src/data_models/openalex.py:130-143 | an organization needs `openalex_id` and `name`; `lineage_ids` defaults to `[]` |
| OpenAlexModels.OrganizationRoundTrip | src/data_models/openalex.py:130-143 | dumping an organization and validating the dump gives it back |
| OpenAlexModels.MappingIsBijective | src/data_models/openalex.py:205-219 | the mapping renames `id`, `display_name` and `lineage` and passes country code, type and ROR through: it is injective and every organization is the image of exactly one institution |
| OpenAlexModels.MappedInstitutionValidates | src/data_models/openalex.py:205-219 | the mapped node of a validated institution validates as an organization with the same fields |
| OpenAlexModels.ParseDoiMatchDefaults | src/data_models/openalex.py:221-226 | a match without a confidence has confidence 1.0, and the three ids are required |
| OpenAlexModels.DoiMatchRoundTrip | src/data_models/openalex.py:221-226 | dumping a match and validating the dump gives it back |

## Left out

- The HTTP session, urllib3 retry and backoff settings and the User-Agent: a request is given as its reply, either a document or a failure.
- XML parsing and namespaces: a record element is given as its header fields and the `(tag, text)` sequence of its Dublin Core children.
- gzip and JSON decoding: each input line of the loaders is a decoded record or malformed.
- OpenAlexModels.ParseWork: pydantic's lax coercions between JSON types are not modelled. A field accepts only the JSON type of its annotation here, and a JSON integer for a `float`. pydantic also takes, for example, `5.0` or `"5"` for an `int` and `0`, `1` or `"true"` for a `bool`, and pydantic 1 turns a number into a `str`. The exact rules differ between pydantic 1 and 2, and the version is not pinned. Of the seven nested-record fields (`authorships`, `concepts`, `topics`, `primary_topic`, `primary_location`, `locations` and `best_oa_location`) only the shape is checked: a list of objects, or an optional object. The fields of the nested records are not validated. `ParseInstitution`, `ParseOrganization` and `ParseDoiMatch` leave out the same coercions.
- `time.sleep` and `time.time`: the one-second pause is a flag on each request, and the sixty-second retry sleep is not modelled. All throughput, MB/s, ETA and percentage figures are floating-point timing and are left out.
- Logging and the summary printers (`_log_*_summary`), including the `deleted_count` message of `delete_paper`.
- File-system scans: the sorted directories and part files are given as a sequence, and `_quick_dataset_overview` and `_quick_citation_overview` are not part of this model.
- `performance_diagnostic.py`, `scheduler.py` and `quick_dataset_summary.py` are not part of this model. Neither are the `main` functions (except the ultra-fast aggregation loop), environment loading, prompts, `clear_database`, the DDL of `create_constraints`, and the index creation and count reads of the `_prepare_*` and `_ensure_indexes` methods.
- Driver connection pooling, concurrency and the row order inside one UNWIND: rows are applied in list order and the later row wins where two rows set the same property.
- Read queries never fail. Only write statements consume the fault oracle.
- ArxivRecords.UpdateDateOf: for the updater, `datetime.fromisoformat` is tried before `strptime`. The model parses only `YYYY-MM-DD`, which gives the same midnight timestamp. An ISO timestamp with a time of day, which `fromisoformat` would accept, is stored as no date in the model.
- ArxivUpdater.LastUpdateTimestamp: the ledger's `last_update_time` is read as the stored timestamp directly, without the `fromisoformat` text round trip.
- OpenAlexLoaders.LoadSizes: the sizes are stated only when every batch goes through. They are also stated only without a filter or with `batch_size >= 1`, because the filtered loop with a `batch_size` below 1 also flushes on works whose DOI is not in the set.
- CitationLoader.CiteFileCounts: the lower bound is stated with the id set taken from the store and no failing statement. With failures only the upper bounds of `CitationLoader.CiteFileEffect` hold.
- Dates.ParseYmd: only ASCII digits are read. `strptime`'s `\d` also matches other Unicode decimal digits, which the model rejects.
- ArxivUpdater.RunIncrementalUpdate: Neo4j's `datetime()` is one value `stamp` for every batch of a run, although the server reads its clock once per statement.
- Paper scalar fields are carried as parsed values; the byte-level content of titles and abstracts is not interpreted.

## Findings

| source | as written | input that shows it | evidently intended | confidence | as-written member | corrected member |
|---|---|---|---|---|---|---|
| src/oai_pmh_client.py:178-183 | a deleted header yields identifier, datestamp and status but no `arxiv_id`, so `convert_oai_record_to_paper_data` (src/arxiv_updater.py:69-73) gives `id` None, and `delete_paper(None)` matches no paper while `upsert_paper_batch` counts it as deleted | a header with `status="deleted"` and identifier `oai:arXiv.org:2101.00001`, for a paper `2101.00001` in the graph | the deleted record names its paper by the id after the last `:` of the identifier, and the paper is removed | not executed | ArxivUpdater.DeletedRecordKeepsPaperAsWritten | ArxivUpdater.DeletedRecordRemovesPaper |

The harvest and the run are modelled as written. `OaiPmh.ParseRecords` and `OaiPmh.ListRecordsResponse` use `OaiPmh.ParseRecordAsWritten`, so `ArxivUpdater.RunIncrementalUpdate` keeps a withdrawn paper, as the program does. `OaiPmh.ParseRecord` is the corrected parser. `ArxivUpdater.DeletedRecordRemovesPaper` proves that with it the paper is removed.
