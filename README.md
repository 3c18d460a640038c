# opensiddur-ai, modelled in Dafny

This project models the core of the Open Siddur tooling in Dafny and proves properties about it. That tooling builds Jewish liturgical texts in JLPTEI, an XML dialect of TEI, by importing them from MediaWiki sources and other sources and exporting them to XeLaTeX. The model covers three groups of code.

- **Exporter.** `Urn` covers URN parsing and range resolution with project priorities. `RefDb` models the reference database as a class over two tables: it indexes files, upserts URN mappings, removes files and projects, and synchronises projects with the disk. `Compiler`, `CompilerWalk` and `CompilerProps` cover the compiler's transclusion step, its start/end frames, and the external and inline processors that walk a tree. `Linear` and `Cache` cover the shared linear data and the XML cache, `Settings` the priority settings, and `Xelatex` the grouping of licenses.
- **Importer.** `Pages` and `AgentTools` model the page and credit readers. `TemplateFinder` models the counting of templates and tags across pages. `MediaWikiPreprocess`, `MediaWikiHandlers` and `MediaWikiProcessor` model the MediaWiki→JLPTEI processor: its handler registries, its preprocessor and postprocessor pipelines, the built-in template and tag handlers, and wikilink collection.
- **Converters.** `ConvertWikisource` covers the JPS 1917 Wikisource conversion: books, indexes, headers and the files written. `Prepare` covers the file-name mapping and `TitlePage` the title-page extraction. `EncodingAgent` models the text-encoding agent's state graph one step at a time, with the language model, the linter and the patch tool as parameters. `Transformer` covers the generic XML tree transformer, and `Wlc` the Westminster Leningrad Codex converter.

Shared helpers are `Ordering` (the string order of `sorted`, `ORDER BY` and `DISTINCT`), `Wrappers` (Option/Result), `PyStr` (Python string operations such as `strip`, `split`, `rsplit`, `replace`, `lower`), `Seqs` and `Xml` (an lxml-like element value).

Stateful objects are classes with `modifies` clauses: the XML cache, the linear data, the reference database and the MediaWiki processor. Loops in the source are methods with loop invariants, and each is proved against a specification function. Pure code is functions and lemmas.

Files, the SQLite database, clocks and parsers the model cannot see (lxml, mwparserfromhell, Saxon) are parameters: a directory is a map from names to contents, and a parse is a function given to the operation.

## Model

| member | source | states |
|---|---|---|
| Cache.PathOfFile | opensiddur/exporter/cache.py:12-13 | the path of a file is the base path extended by the project and then the file name |
| Cache.PathOfFileInjective | opensiddur/exporter/cache.py:12-13 | different (project, file name) keys name different paths, so cache keys and files correspond one to one |
| Cache.ParseFromDisk | opensiddur/exporter/cache.py:19-23 | a missing path raises `FileNotFoundError` naming the path; the read succeeds exactly when the file exists and parses, and yields that file's tree |
| Cache.XmlCache.constructor | opensiddur/exporter/cache.py:8-10 | a new cache has the given base path and no entries |
| Cache.XmlCache.ParseXml | opensiddur/exporter/cache.py:15-25 | a hit returns the stored tree and leaves the cache as it was; a miss reads the disk and stores only a successful parse under its key; no entry is ever changed or dropped; a cache consistent with the disk stays consistent |
| Cache.CachedAgreesWithDisk | opensiddur/exporter/cache.py:15-25 | under a consistent cache a hit returns exactly what reading the disk would |
| Linear.LinearData.constructor | opensiddur/exporter/linear.py:19-35 | a new record has a fresh empty XML cache and every list empty |
| Linear.LinearData.PushContext | opensiddur/exporter/compiler.py:205-215 | pushing a processing frame appends it to the stack and changes no other field |
| Linear.LinearData.PopContext | opensiddur/exporter/compiler.py:216 | popping an empty stack raises `IndexError`; otherwise the top frame is returned and removed; no other field changes |
| Linear.LinearData.SetTop | opensiddur/exporter/compiler.py:331-332 | updating the top frame in place replaces the last frame only |
| Linear.LinearModule.constructor | opensiddur/exporter/linear.py:37 | the module starts with a fresh, empty record |
| Linear.LinearModule.Reset | opensiddur/exporter/linear.py:39-41 | after `reset_linear_data` the global is a new record with an empty cache and every list empty |
| Linear.LinearModule.Get | opensiddur/exporter/linear.py:43-45 | `get_linear_data` returns the current global record itself |
| Settings.ValidateProjectList | opensiddur/exporter/settings.py:11-17 | the list is returned unchanged exactly when every project exists; otherwise the error is the `ValueError` for the first missing project |
| Settings.ValidateSettings | opensiddur/exporter/settings.py:19-37 | a missing `priority` is an error; validation succeeds exactly when all three lists name existing projects; omitted lists default to empty |
| Settings.LoadSettings | opensiddur/exporter/settings.py:39-49 | on valid settings the three priority lists are replaced by the file's lists and the same record is returned; on an error none of them changes; settings and processing context are untouched |
| Settings.LoadDefaultSettings | opensiddur/exporter/settings.py:52-61 | all three lists become `[project]`; nothing else changes |
| Pages.GetPage | opensiddur/importer/util/pages.py:6-14 | an unparsable page number raises; otherwise the page is absent exactly when its zero-padded file is missing, and a present page carries its number and the whole file content |
| Pages.StrippedNonBlank | opensiddur/importer/util/pages.py:22 | every kept line is non-empty and already stripped, and no more lines are kept than given |
| Pages.StrippedNonBlankAppend | opensiddur/importer/util/pages.py:22 | appending a line appends its stripped form, or nothing when it is blank, so order is kept |
| Pages.StripIdempotent | opensiddur/importer/util/pages.py:22 | stripping a stripped line changes nothing |
| Pages.KeptAsIs | opensiddur/importer/util/pages.py:22 | lines that are already stripped and non-blank are all kept, unchanged |
| Pages.GetCredits | opensiddur/importer/util/pages.py:16-24 | an unparsable number raises; otherwise the credits are absent exactly when the file is missing, and each credit line is non-empty and stripped |
| Pages.CreditLinesRoundTrip | opensiddur/importer/util/pages.py:21-22 | credit lines written one per line, each stripped and non-blank, read back exactly |
| Pages.CreditLines | opensiddur/importer/util/pages.py:21-22 | the stripped non-blank lines of a credits file; Pages.CreditLinesRoundTrip states that such lines written one per line are read back exactly |
| Pages.ZeroPadValue | opensiddur/importer/util/pages.py:9 | `{n:04d}` of a natural is all digits and has the value `n` |
| Pages.ParseInt | opensiddur/importer/util/pages.py:8 | Python's `int()` of a string: surrounding whitespace, an optional sign, and ASCII digits with single underscores between them, otherwise ValueError; Pages.ParseSignedDigits, Pages.UnderscoresSkipped and Pages.MisplacedUnderscores state it |
| Pages.ParseSignedDigits | opensiddur/importer/util/pages.py:8 | `int()` of an optionally signed digit run gives its value |
| Pages.PlainDigitGroups | opensiddur/importer/util/pages.py:8 | a run of plain digits is a valid `int()` literal with its decimal value |
| Pages.UnderscoresSkipped | opensiddur/importer/util/pages.py:8 | `int()` skips single underscores between digits: `"1_0"` is 10 and `" -2_5 "` is -25 |
| Pages.MisplacedUnderscores | opensiddur/importer/util/pages.py:8 | a doubled, leading or trailing underscore, or one after the sign, makes `int()` raise |
| Pages.PageFileNameShape | opensiddur/importer/util/pages.py:9 | the page file name is at least four digits (with a leading `-` for negatives) and `.txt`, and its stem parses back to the page number |
| Pages.PageFileName | opensiddur/importer/util/pages.py:9 | `f"{page_num:04d}.txt"`; Pages.PageFileNameShape states the zero padding to four digits, the `.txt` suffix, and that the stem parses back to the page number |
| Pages.IntAndStringAgree | opensiddur/importer/util/pages.py:6-24 | an `int` page number and its decimal string read the same page and the same credits |
| AgentTools.GetPage | opensiddur/importer/agent/tools.py:10-19 | the agent's `get_page` raises on an unparsable number, gives None exactly when the file is missing, and otherwise the page with that number |
| AgentTools.GetCredits | opensiddur/importer/agent/tools.py:21-29 | the agent's `get_credits` gives None exactly when the file is missing, and otherwise stripped non-blank lines |
| AgentTools.AgreesWithImporter | opensiddur/importer/agent/tools.py:10-29 | the agent's two tools read the same pages and credits as the importer's `pages` module |
| Xelatex.Grouped | opensiddur/exporter/tex/xelatex.py:76-86 | the grouped licenses have pairwise distinct URLs, cover exactly the URLs of the input, and are no more than the input |
| Xelatex.GroupLicenses | opensiddur/exporter/tex/xelatex.py:76-86 | the loop with its set of URLs seen computes `Grouped` |
| Xelatex.GroupedKeepsFirst | opensiddur/exporter/tex/xelatex.py:82-85 | each kept record is the first entry of the input carrying its URL |
| Xelatex.Items | opensiddur/exporter/tex/xelatex.py:97 | one `\item name (\url{url})` line per license, in order |
| Xelatex.LicensesToTex | opensiddur/exporter/tex/xelatex.py:88-101 | the text starts with the `\section{Legal}` heading |
| Xelatex.LicensesToTexLines | opensiddur/exporter/tex/xelatex.py:92-100 | between the fixed header and footer, the lines are exactly one item per license, when no name or URL contains a newline |
| Urn.Qualifier | opensiddur/exporter/urn.py:47-52 | `rsplit('@', 1)`: with no `@` the URN is unqualified; otherwise URN, `@` and project rebuild the input and the project holds no `@` |
| Urn.QualifierOf | opensiddur/exporter/urn.py:47-48 | a URN qualified with an `@`-free project splits back into the URN and the project |
| Urn.Resolve | opensiddur/exporter/urn.py:34-55 | one result per matching mapping; every result carries the URN without its qualifier; a result is in the list exactly when some row matches the URN (and the project, when one is given) and the result is built from that row |
| Urn.ResolveAsWritten | opensiddur/exporter/urn.py:54-55 | as written, `row.element_path` is read from a `UrnMapping`, which has no such field, so the call succeeds only when nothing matches |
| Urn.ResolveAsWrittenRaises | opensiddur/exporter/urn.py:54-55 | a stored mapping makes the as-written `resolve` raise `AttributeError`, while the corrected one returns it |
| Urn.SelectKeyed | opensiddur/exporter/urn.py:49 | with keys (URN, project) distinct, a qualified query finds at most the one row with that key |
| Urn.ResolveQualified | opensiddur/exporter/urn.py:47-55 | a qualified URN resolves to the single stored mapping for that URN and project, or to nothing |
| Urn.ResolveAfterAdd | opensiddur/exporter/urn.py:34-55 | after a URN mapping is upserted, resolving the qualified URN gives exactly that mapping |
| Urn.GetUrnsByProject | opensiddur/exporter/urn.py:180-192 | a result is listed exactly when some row matches the project and the result is built from that row; every result is in the project; an empty project name selects every row |
| Urn.GetUrnsByProjectAsWritten | opensiddur/exporter/urn.py:190-192 | as written, the result reads `mapping.element_path`, which a `UrnMapping` lacks, so it succeeds only when nothing matches |
| Urn.LastDashBelow | opensiddur/exporter/urn.py:114-118 | the found component is the last one, below the limit and after the scheme part, that holds a `-`; none is found exactly when no such component exists |
| Urn.FindRangeStart | opensiddur/exporter/urn.py:114-118 | the backwards search loop finds that component |
| Urn.RangePartsReplace | opensiddur/exporter/urn.py:129-155 | the start is the components before the range with the text before the `-`; the end replaces the last N components, N the number of components of the end specification, using Python's slice semantics when the count does not fit |
| Urn.RangeEndsOfJoin | opensiddur/exporter/urn.py:92-155 | splitting on `/` and rejoining gives the start and end URNs from the component found |
| Urn.RangeLastComponent | opensiddur/exporter/urn.py:61 | `genesis/1/1-2` has the range `genesis/1/1` to `genesis/1/2` |
| Urn.RangeTwoComponents | opensiddur/exporter/urn.py:62 | `genesis/1/1-2/3` has the range `genesis/1/1` to `genesis/2/3` |
| Urn.RangeLongEndSpec | opensiddur/exporter/urn.py:154 | when the end specification has more components than the prefix, the negative slice index keeps a prefix of the parts instead of dropping them |
| Urn.SchemeDashIsNoRange | opensiddur/exporter/urn.py:103-109 | a URN with no `/` is never a range, whatever dashes its scheme holds |
| Urn.EndFor | opensiddur/exporter/urn.py:172-173 | the end for a (project, file) is absent exactly when no end has that key, and otherwise is an end with that key |
| Urn.EndForIsLast | opensiddur/exporter/urn.py:172-173 | the dictionary keeps the last end with each key |
| Urn.PairRanges | opensiddur/exporter/urn.py:174-176 | every range pairs a start with the end the dictionary holds for its project and file, and every start with an end in the same file yields a range |
| Urn.Singles | opensiddur/exporter/urn.py:109 | unranged results are the resolved URNs themselves, in order |
| Urn.RangedResolvesToPairs | opensiddur/exporter/urn.py:57-178 | a ranged URN gives only ranges whose start and end resolve from the two range ends in the same project and file, and every such start appears |
| Urn.ResolveRangeSpec | opensiddur/exporter/urn.py:57-178 | what `resolve_range` returns for a single or a ranged URN; Urn.RangedResolvesToPairs and CompilerProps.RangesInOneFile state that a range resolves to start and end pairs in one file |
| Urn.ResolveRange | opensiddur/exporter/urn.py:57-178 | `resolve_range` computes the range specification |
| Urn.UnrangedResolvesDirectly | opensiddur/exporter/urn.py:120-127 | a URN with no range component resolves as `resolve` does |
| Urn.PriorityOf | opensiddur/exporter/urn.py:211 | `dict(zip(priority, range(...)))` gives a listed project the index of its last occurrence, and an unlisted one nothing |
| Urn.PrioritizeRange | opensiddur/exporter/urn.py:196-221 | with `return_all` the result is all listed candidates sorted by priority, a permutation of those candidates |
| Urn.RankedMembers | opensiddur/exporter/urn.py:214-217 | the sorted list holds exactly the candidates whose project is listed |
| Urn.PrioritizeRangeNone | opensiddur/exporter/urn.py:219-221 | the result is None exactly when no candidate's project is listed |
| Urn.PrioritizeRangeBest | opensiddur/exporter/urn.py:220 | the best candidate is listed and no listed candidate has a better priority |
| Urn.PrioritizeRangeStable | opensiddur/exporter/urn.py:214-220 | among equal priorities, the stable sort returns the first listed candidate |
| Urn.GetPathFromUrn | opensiddur/exporter/urn.py:223-233 | the path is the project directory extended by the project and the file name |
| RefDb.SelectMappings | opensiddur/exporter/refdb.py:110-135 | a mapping is returned exactly when some stored row passes the query's filter and the mapping is built from that row |
| RefDb.FindKey | opensiddur/exporter/refdb.py:56 | the primary key `(urn, project)` is found at a row with that key, or no row has it |
| RefDb.Upsert | opensiddur/exporter/refdb.py:174-190 | `INSERT ... ON CONFLICT(urn, project) DO UPDATE`: keys stay distinct, the new row is present, nothing else is added, and rows with other keys are kept |
| RefDb.FindKeyUnique | opensiddur/exporter/refdb.py:56 | under distinct keys, the key of a row is found at that row |
| RefDb.UpsertLookup | opensiddur/exporter/refdb.py:183-189 | after an upsert, looking up its key gives the new row and every other key gives what it gave before |
| RefDb.UpsertKeepsKeys | opensiddur/exporter/refdb.py:183-189 | an upsert adds its key and keeps every key already stored |
| RefDb.RowsForTokens | opensiddur/exporter/refdb.py:208-214 | one reference row per whitespace-separated target, in order |
| RefDb.ReferenceRowsForFacts | opensiddur/exporter/refdb.py:192-215 | an element with an empty or missing `target` adds nothing; otherwise one row per target token, with `targetEnd` defaulting to the token, `target_is_id` when the token starts with `#`, and the element's path, project and file |
| RefDb.ReferenceRowsForOfFile | opensiddur/exporter/refdb.py:212-214 | every row added for an element belongs to the file being indexed |
| RefDb.MappingsAfterIndexing | opensiddur/exporter/refdb.py:299-306 | indexing URN declarations keeps the `(urn, project)` keys distinct |
| RefDb.MappingsAfterIndexingFacts | opensiddur/exporter/refdb.py:299-306 | indexing adds only rows of the file being indexed, keeps other projects' rows and every existing key, and stores a key for every element whose `corresp` starts with `urn:x-opensiddur:` |
| RefDb.ReferencesFromIndexingOfFile | opensiddur/exporter/refdb.py:308-312 | every reference added while indexing a file belongs to that file |
| RefDb.FilterKeysDistinct | opensiddur/exporter/refdb.py:359-363 | deleting rows keeps the keys distinct |
| RefDb.DedupByPath | opensiddur/exporter/refdb.py:164-170 | the deduplicated references have distinct element paths, skip the paths already seen, keep the input's order (a subsequence of it), and the row kept for a path is the first input row with that path |
| RefDb.FirstWithPath | opensiddur/exporter/refdb.py:164-170 | the first row with a given element path, the one the `seen_paths` loop keeps; no contract of its own, used by the contracts of DedupByPath and GetReferencesTo |
| RefDb.DedupByPathCovers | opensiddur/exporter/refdb.py:164-170 | every element path of the input not already seen keeps a reference |
| RefDb.ReferencesOf | opensiddur/exporter/refdb.py:172 | the references are the stored rows' references, in order |
| RefDb.StoredProjects | opensiddur/exporter/refdb.py:559 | the projects known to the database are those of either table |
| RefDb.ReferenceOnlyFileIsNotOrphaned | opensiddur/exporter/refdb.py:508-511 | a file with references but no URN mappings is not among the database's files as written, so it is never found orphaned; the corrected set contains it |
| RefDb.ReferenceOnlyProjectIsNotOrphaned | opensiddur/exporter/refdb.py:559-562 | likewise a project with only references is never found orphaned as written, but is in the corrected set |
| RefDb.AllOnDiskFromProjects | opensiddur/exporter/refdb.py:555-579 | when only disk projects are stored and each project's rows name only its files on disk, the whole database is on disk |
| RefDb.OtherFilesStayOnDisk | opensiddur/exporter/refdb.py:573-574 | syncing one project does not disturb another project's agreement with the disk |
| RefDb.SyncKeepsProjectsIn | opensiddur/exporter/refdb.py:573-574 | syncing a known project stores no new project |
| RefDb.ReferenceDatabase.constructor | opensiddur/exporter/refdb.py:34-108 | a new database has both tables empty and distinct keys |
| RefDb.ReferenceDatabase.GetUrnMappings | opensiddur/exporter/refdb.py:110-135 | a mapping is returned exactly when a stored row matches the given URN and project, each only when given |
| RefDb.ReferenceDatabase.GetUrnsByProject | opensiddur/exporter/refdb.py:217-231 | a mapping is returned exactly when a stored row of the project gives it |
| RefDb.ReferenceDatabase.GetFilesByProject | opensiddur/exporter/refdb.py:233-247 | `SELECT DISTINCT ... ORDER BY`: the file names of the project's mappings, strictly sorted |
| RefDb.ReferenceDatabase.ListProjects | opensiddur/exporter/refdb.py:266-274 | the projects of the URN mappings, strictly sorted |
| RefDb.ReferenceDatabase.GetReferencesTo | opensiddur/exporter/refdb.py:137-172 | references to the URN followed by those to the `#`-prefixed id when id, project and file are all given: the result is a subsequence of those hits with distinct element paths, covers every path of the hits, keeps for each path its first hit, and is empty when neither query applies |
| RefDb.ReferenceDatabase.FileLastUpdated | opensiddur/exporter/refdb.py:399-436 | the stored tables' last update time of the file, as LastUpdated states it |
| RefDb.LastUpdated | opensiddur/exporter/refdb.py:399-436 | None exactly when neither table holds a row of the file; otherwise an upper bound of the update times of all its rows, attained by one of them |
| RefDb.ReferenceDatabase.GetReferencesByProject | opensiddur/exporter/refdb.py:250-264 | the project's references, sorted by element path, a permutation of the stored ones |
| RefDb.ReferenceDatabase.AddUrnMapping | opensiddur/exporter/refdb.py:174-190 | the URN table becomes the upsert of the row and the reference table is unchanged |
| RefDb.ReferenceDatabase.AddReference | opensiddur/exporter/refdb.py:192-215 | the element's reference rows are appended and the URN table is unchanged |
| RefDb.ReferenceDatabase.IndexUrns | opensiddur/exporter/refdb.py:299-306 | the loop upserts every URN declaration and counts them |
| RefDb.ReferenceDatabase.IndexReferences | opensiddur/exporter/refdb.py:308-312 | the loop appends every element's references and counts every element with a `target` attribute, even an empty one |
| RefDb.ReferenceDatabase.IndexElementReferences | opensiddur/exporter/refdb.py:310-312 | one turn of that loop extends the stored references by one element's rows |
| RefDb.ReferenceDatabase.IndexFile | opensiddur/exporter/refdb.py:276-317 | a file that does not parse indexes nothing and counts 0; otherwise both tables grow as indexing specifies and the count is URN declarations plus elements with a target |
| RefDb.ReferenceDatabase.Delete | opensiddur/exporter/refdb.py:349-397 | deleting by file and project, or by project, keeps exactly the other rows of both tables and counts those removed |
| RefDb.ReferenceDatabase.RemoveFile | opensiddur/exporter/refdb.py:349-372 | both tables lose exactly the file's rows and the count is the number removed |
| RefDb.ReferenceDatabase.RemoveProject | opensiddur/exporter/refdb.py:374-397 | both tables lose exactly the project's rows and the count is the number removed |
| RefDb.ReferenceDatabase.IndexProject | opensiddur/exporter/refdb.py:319-347 | a missing path or a non-directory raises the source's `ValueError` and changes nothing; otherwise the loop visits every `*.xml` file once in some order `order`, the tables become IndexFiles of the old tables over that order, stamped with `now`, and the result is the sum of the counts `index_file` returns; every URN key is kept and only the project's XML files gain rows |
| RefDb.IndexFiles | opensiddur/exporter/refdb.py:329-345 | the tables after indexing the files in a given order, one `index_file` after another; no contract of its own, used by IndexProject |
| RefDb.ReferenceDatabase.SyncFile | opensiddur/exporter/refdb.py:439-480 | the new tables, the action and the count are exactly SyncFileStep of the old tables: removed with its row count when gone from disk, added with its count when no row is stored, removed and re-indexed when the file is newer than its last update, skipped with nothing changed otherwise; other projects' mappings and other files' references stay |
| RefDb.SyncFileStep | opensiddur/exporter/refdb.py:439-480 | the four cases of `sync_file` on the tables; no contract of its own, used by SyncFile and SyncFiles |
| RefDb.ReferenceDatabase.Reindex | opensiddur/exporter/refdb.py:475-476 | removing and re-indexing a file leaves exactly the tables `index_file` produces from the ones given, returns its count, and touches only that file's rows |
| RefDb.ReferenceDatabase.SyncProject | opensiddur/exporter/refdb.py:482-536 | the new tables and report are those ProjectSynced describes: without a project directory the project's rows are deleted and counted as removed; otherwise the orphaned files, those known to either table (the corrected set of the Findings row for refdb.py:508-511), have their rows deleted and counted, and every `*.xml` file is synced once, summing the added, updated and skipped counts; afterwards the project's stored files are among its XML files on disk and other projects are untouched |
| RefDb.ProjectSynced | opensiddur/exporter/refdb.py:482-536 | the state and report `sync_project` leaves, with the orphaned files taken from both tables (the corrected set of the Findings row for refdb.py:508-511); no contract of its own, used by SyncProject |
| RefDb.ReferenceDatabase.RemoveOrphanFiles | opensiddur/exporter/refdb.py:510-514 | the loop removes exactly the orphaned files' rows from both tables and counts them |
| RefDb.ReferenceDatabase.SyncDiskFiles | opensiddur/exporter/refdb.py:516-529 | the loop syncs every `*.xml` file once, leaving exactly the tables and sums SyncFiles gives for that order; other projects are untouched and a project already on disk stays on disk |
| RefDb.SyncFiles | opensiddur/exporter/refdb.py:516-529 | the tables and the three sums after syncing the files in a given order; no contract of its own, used by SyncDiskFiles |
| RefDb.SyncFilesAppend | opensiddur/exporter/refdb.py:521-528 | syncing one more file continues the run by that file's step, adding its count to the sum its action names |
| RefDb.OrphansRemovedLeaveDisk | opensiddur/exporter/refdb.py:505-514 | once the orphaned files, those known to either table (the corrected set of the Findings row for refdb.py:508-511), are removed, every row of the project names a file on disk and other projects are untouched |
| RefDb.ReferenceDatabase.SyncProjects | opensiddur/exporter/refdb.py:538-589 | a missing project directory raises and changes nothing; otherwise the orphaned projects, those known to either table (the corrected set of the Findings row for refdb.py:559-562), are removed, and from those tables every disk project is synced once, each step leading from one table state to the next exactly as ProjectSynced describes with its report kept; the database then holds only what is on disk, the orphan count is the number of orphaned projects, the added, updated and skipped totals are the sums of the projects' reports, and the removed total is the orphaned projects' rows plus the sum of the projects' removed counts |
| RefDb.ReferenceDatabase.RemoveOrphanProjects | opensiddur/exporter/refdb.py:562-565 | the loop removes exactly the orphaned projects' rows from both tables, counts them, and leaves only the kept projects stored |
| RefDb.ReferenceDatabase.SyncDiskProjects | opensiddur/exporter/refdb.py:573-579 | syncing every disk project once, in the loop's order: the tables pass from the old ones to the new ones through one state per project, each step and that project's kept report exactly as ProjectSynced describes; the database then agrees with the disk, there is one report per project, and the totals are the sums of those reports |
| RefDb.ReferenceDatabase.SyncDiskProject | opensiddur/exporter/refdb.py:573-575 | one turn of that loop: the project is synced from the current tables to the new ones exactly as ProjectSynced describes, the loop's chain of states, reports and sums grows by that step, the projects synced so far agree with the disk, and no new project is stored |
| RefDb.SumReports | opensiddur/exporter/refdb.py:575-579 | the four sums of the per-project counts over the projects in a given order; no contract of its own, used by SyncDiskProjects and SyncProjects |
| RefDb.SumReportsAppend | opensiddur/exporter/refdb.py:575-579 | adding the report of a project not yet summed adds its four counts to the sums |
| RefDb.SumReportsFrame | opensiddur/exporter/refdb.py:574-575 | storing the report of a project not yet summed leaves the sums over the projects before it unchanged |
| RefDb.ProjectsChain | opensiddur/exporter/refdb.py:573-579 | the second loop of `sync_projects` as a chain of table states, each step one `sync_project` of the next project in the loop's order with the report kept for it; no contract of its own, used by SyncDiskProjects and SyncProjects |
| RefDb.ProjectsChainAppend | opensiddur/exporter/refdb.py:573-575 | syncing one more project, not synced before, extends the chain by one step and keeps every earlier step |
| RefDb.ProjectsTurn | opensiddur/exporter/refdb.py:573-579 | one more `sync_project` extends the loop's order, its chain of states and its kept reports, and adds that project's counts to the four sums |
| RefDb.FileNamesOf | opensiddur/exporter/refdb.py:244 | exactly the file names of the project's rows |
| RefDb.ProjectsOf | opensiddur/exporter/refdb.py:273 | exactly the projects of the rows |
| RefDb.MappingTimes | opensiddur/exporter/refdb.py:411 | the update times of the file's URN rows; empty exactly when it has none |
| RefDb.ReferenceTimes | opensiddur/exporter/refdb.py:413 | the update times of the file's reference rows; empty exactly when it has none |
| Compiler.NsMapOf | opensiddur/exporter/compiler.py:64-70 | the namespace map is the root's, with `p` bound to the processing namespace |
| Compiler.Candidates | opensiddur/exporter/compiler.py:132 | each resolution becomes one candidate, in order, and none is a database reference |
| Compiler.IsTranscludeAsWritten | opensiddur/exporter/compiler.py:80 | as written the test is never true: lxml's `tag` of a namespaced element is `{...}transclude`, a plain `transclude` tag goes on to `element.namespace`, which lxml elements lack and which raises, and any other tag gives false |
| Compiler.ProcessingElementAsWritten | opensiddur/exporter/compiler.py:85 | as written, `etree.Element('p:transclude')` is refused by lxml with `ValueError` |
| Compiler.ProcessingElement | opensiddur/exporter/compiler.py:85-90 | the intended element is `{processing}transclude` with the given attributes and no tail |
| Compiler.TranscludeAttrs | opensiddur/exporter/compiler.py:87-90 | `target` and `type` are always set, and `targetEnd` exactly when it is non-empty |
| Compiler.InlineBefore | opensiddur/exporter/compiler.py:400-431 | after the end the command is SKIP; otherwise the frame leaves "before start" exactly at the start element, and the command is RECURSE exactly while still before the start, else COPY_TEXT_AND_RECURSE |
| Compiler.InlineAfter | opensiddur/exporter/compiler.py:433-444 | only `after_end` changes, and it becomes set exactly at an end element between start and end |
| Compiler.InlineStep | opensiddur/exporter/compiler.py:472-483 | gathering one child keeps the frame the child's walk left |
| Compiler.HashPart | opensiddur/exporter/compiler.py:293 | `split('#')[1]` exists exactly when the string holds a `#` |
| Compiler.ExternalAnchor | opensiddur/exporter/compiler.py:293-323 | a matching `corresp` is an anchor; otherwise the test raises `IndexError` exactly when the URN has no `#` |
| Compiler.ExternalBefore | opensiddur/exporter/compiler.py:269-308 | after the end the command is SKIP; the result is one of the four commands and `after_end` and the URNs are kept |
| Compiler.ExternalAfter | opensiddur/exporter/compiler.py:310-324 | leaving the deepest common ancestor only clears its flag and returns; before the start or after the end nothing changes |
| Compiler.FindBelow | opensiddur/exporter/compiler.py:226-240 | `./descendant::*[@key='value'][0]`: a position found is strictly below the element and holds the attribute with that value |
| Compiler.AnchorKey | opensiddur/exporter/compiler.py:225-232 | a `urn:` anchor is searched by `corresp`; any other needs a `#` (else `IndexError`) and is searched by `xml:id` |
| Compiler.DeepestCommonAncestor | opensiddur/exporter/compiler.py:221-249 | a found ancestor is an element of the tree strictly below the root |
| Compiler.ExternalProcessAsWritten | opensiddur/exporter/compiler.py:367-373 | as written the frame starts with `after_end` set, so the root is skipped and the transclusion is always empty |
| CompilerProps.RangesInOneFile | opensiddur/exporter/urn.py:172-176 | every range the resolver returns has its start and end in the same project and file |
| CompilerProps.BestIsResolved | opensiddur/exporter/compiler.py:127-134 | the prioritized target is one of the resolver's results, from a listed project, never a database reference |
| CompilerProps.StartAndEndInOneFile | opensiddur/exporter/compiler.py:118-157 | a successful start and end lie in one file of a listed project |
| Compiler.StartAndEnd | opensiddur/exporter/compiler.py:118-157 | `_get_start_and_end_from_ranges`: the best-priority resolution of the target gives start and end, a range may not be combined with `targetEnd`, and a single URN ends at itself or at `targetEnd` in its project; CompilerProps.StartAndEndInOneFile and StartAndEndNeedsPrioritizedTarget state it |
| CompilerProps.EndInStartFileSameFile | opensiddur/exporter/compiler.py:143-153 | an explicit `targetEnd` resolves within the start's project and file |
| CompilerProps.StartAndEndCases | opensiddur/exporter/compiler.py:136-157 | a range target gives its own range and cannot take a `targetEnd`; a single target without `targetEnd` is its own start and end, and with one is resolved in the start's file |
| CompilerProps.StartAndEndNeedsPrioritizedTarget | opensiddur/exporter/compiler.py:127-134 | a target none of whose resolutions is in a listed project raises |
| CompilerProps.NormalizedIdempotent | opensiddur/exporter/compiler.py:179-190 | copying a copy changes nothing |
| CompilerProps.BaseCopiesTree | opensiddur/exporter/compiler.py:172-193 | without transclusions the base walk is an identity copy: tags, attributes, text and tails, in the processor's namespace map |
| CompilerProps.BaseChildrenCopy | opensiddur/exporter/compiler.py:186-190 | the loop over children copies each child in order |
| CompilerProps.BaseProcessCopiesRoot | opensiddur/exporter/compiler.py:195-218 | `process()` of a file without transclusions returns a copy of its root |
| CompilerProps.TranscludeShape | opensiddur/exporter/compiler.py:72-116 | a non-transclusion gives None and a transclusion never does; a missing target or type raises `TypeError` (lxml refuses to set None); the result is the processing element carrying the source's target, target end and type |
| Compiler.Transclude | opensiddur/exporter/compiler.py:72-116 | `_transclude` with the corrected test, element and frame of the Findings rows for compiler.py:80, 85 and 367-373: None for a non-transclusion, otherwise the `p:transclude` element around the external or inline walk of the target range, with the errors lxml raises for a missing target or type; CompilerProps.TranscludeShape and CompilerWalk.TranscludeWalk state it |
| CompilerProps.IsTranscludeAsWrittenMisses | opensiddur/exporter/compiler.py:80 | every real transclusion, whose tag carries the namespace, is answered false by the as-written test |
| CompilerProps.InlineFlags | opensiddur/exporter/compiler.py:447-486 | an inline walk keeps the URNs and the ancestor flag; `after_end` is never cleared and "before start" never set again; without a start below, "before start" stays |
| CompilerProps.InlineChildrenFlags | opensiddur/exporter/compiler.py:471-483 | the same holds over the loop on children |
| CompilerProps.InlineChildrenAfterEnd | opensiddur/exporter/compiler.py:458-483 | once the end has passed, the remaining children add no text and no element |
| CompilerProps.InlineChildrenUnfold | opensiddur/exporter/compiler.py:471-483 | one turn of the loop, when the child's walk and its placing succeed |
| CompilerProps.InlineStepGathers | opensiddur/exporter/compiler.py:473-483 | a text carrier's text is appended, and under COPY_TEXT_AND_RECURSE the child's tail follows with a space |
| CompilerProps.InlineBeforeStart | opensiddur/exporter/compiler.py:426-428 | before the start, an element with no start below yields no text |
| CompilerProps.InlineChildrenBeforeStart | opensiddur/exporter/compiler.py:471-483 | the same over the loop on children |
| CompilerProps.InlineInsideRange | opensiddur/exporter/compiler.py:464-483 | between start and end, an element with no end below yields its text content with tails joined by spaces |
| CompilerProps.InlineChildrenInsideRange | opensiddur/exporter/compiler.py:471-483 | the same over the loop on children |
| CompilerProps.InlineEndClosesRange | opensiddur/exporter/compiler.py:433-444 | the end element's own text is gathered and the range then closes |
| CompilerProps.InlineTailKeptAfterLastEnd | opensiddur/exporter/compiler.py:478-483 | the tail of the end's parent is still added after the end, because the parent's command was read before the end was seen |
| CompilerProps.ExampleEndIsLast | opensiddur/exporter/compiler.py:433-444 | the walk within that example, step by step |
| CompilerProps.InlineTailDroppedAfterSkip | opensiddur/exporter/compiler.py:452-478 | a sibling after the end overwrites the shared command with SKIP, so the parent's tail is then dropped |
| CompilerProps.ExampleEndThenSibling | opensiddur/exporter/compiler.py:452-459 | the walk within that example, step by step |
| CompilerProps.ExternalAncestorOfOneElement | opensiddur/exporter/compiler.py:241-242 | when start and end are one element, it is its own deepest common ancestor |
| CompilerProps.ExternalCopiesStart | opensiddur/exporter/compiler.py:327-360 | with the intended frame the start element is copied with its text |
| CompilerProps.ExternalAnchorWalk | opensiddur/exporter/compiler.py:292-295 | the start turns the frame to "after start" with COPY_AND_RECURSE |
| CompilerProps.ExternalPlainChildWalk | opensiddur/exporter/compiler.py:307-324 | after the start and before the end, a childless element without attributes is copied with its text |
| CompilerProps.ExternalEndAtAncestorMissed | opensiddur/exporter/compiler.py:315-317 | when the end is the deepest common ancestor, the after-hook returns before testing for the end, so a following sibling is copied too |
| CompilerProps.ExternalUrnWithoutHashRaises | opensiddur/exporter/compiler.py:293 | a `urn:` start without `#` raises `IndexError` at the first element carrying a `corresp`, even the start itself |
| CompilerWalk.LoadRootWalk | opensiddur/exporter/compiler.py:60-62 | loading the root through the cache gives what the disk gives and keeps the cache consistent |
| CompilerWalk.BaseElementWalk | opensiddur/exporter/compiler.py:172-193 | the recursive walk computes the base element function, and on success leaves the stack as it was |
| CompilerWalk.BaseChildrenWalk | opensiddur/exporter/compiler.py:186-190 | the loop over children computes the children function |
| CompilerWalk.BaseNextWalk | opensiddur/exporter/compiler.py:187-190 | one turn of that loop advances the children function by one child |
| CompilerWalk.BaseProcessWalk | opensiddur/exporter/compiler.py:195-218 | `process()` pushes a frame, walks the root, pops it, and computes the process function |
| Compiler.BaseProcess | opensiddur/exporter/compiler.py:195-218 | `CompilerProcessor.process()` with the corrected `_transclude`: the file's root is parsed and walked, copying every element and replacing each transclusion; an unreadable file or a failed transclusion is the error. No contract of its own: CompilerWalk.BaseProcessWalk ties it to the walk and CompilerProps.BaseProcessCopiesRoot states the copy |
| CompilerWalk.TranscludeWalk | opensiddur/exporter/compiler.py:72-116 | the transclusion, run through the nested processors, computes the transclusion function |
| CompilerWalk.TranscludeByRange | opensiddur/exporter/compiler.py:92-116 | the transclusion is the processor's result placed in the processing element |
| CompilerWalk.RangeWalk | opensiddur/exporter/compiler.py:94-114 | the external or inline processor is run on the range and its result placed in the shell |
| CompilerWalk.InlineElementWalk | opensiddur/exporter/compiler.py:447-486 | the walk updates the top frame in place and computes the inline element function; on success only the top frame changes |
| CompilerWalk.InlineChildrenWalk | opensiddur/exporter/compiler.py:470-483 | the loop over children computes the inline children function |
| CompilerWalk.InlineNextWalk | opensiddur/exporter/compiler.py:471-483 | one turn of that loop advances it by one child |
| CompilerWalk.ChildrenStep | opensiddur/exporter/compiler.py:471-483 | a child's result either ends the loop with its error or advances it |
| CompilerWalk.InlineChildWalk | opensiddur/exporter/compiler.py:472-483 | a child's walk, then its text gathered or element appended and its tail placed |
| CompilerWalk.InlineProcessWalk | opensiddur/exporter/compiler.py:488-506 | the inline `process()` computes the inline process function |
| Compiler.InlineProcess | opensiddur/exporter/compiler.py:488-506 | `InlineCompilerProcessor.process()`: the walk of the inline range from the start to the end element; CompilerWalk.InlineProcessWalk states it |
| CompilerWalk.ExternalElementWalk | opensiddur/exporter/compiler.py:327-360 | the external walk computes the external element function; on success only the top frame changes |
| CompilerWalk.ExternalChildrenWalk | opensiddur/exporter/compiler.py:353-357 | the loop over children computes the external children function |
| CompilerWalk.ExternalNextWalk | opensiddur/exporter/compiler.py:354-357 | one turn of it: the child's list appended, and its tail added to the last element under COPY_AND_RECURSE, raising on an empty list |
| CompilerWalk.ExternalProcessWalk | opensiddur/exporter/compiler.py:363-382 | the external `process()`, with the intended frame, computes the external process function |
| Compiler.ExternalProcess | opensiddur/exporter/compiler.py:363-382 | `ExternalCompilerProcessor.process()` with the intended frame, the corrected half of the Findings row for lines 367-373, which starts before the start and not after the end, under the deepest common ancestor of start and end; CompilerWalk.ExternalProcessWalk states the walk, and Compiler.ExternalProcessAsWritten the frame the code pushes |
| ConvertWikisource.PageRange | opensiddur/converters/jps1917/convert_wikisource.py:367 | `range(start, end + 1)`: the pages from start to end in order, none when end is below start |
| ConvertWikisource.GetCreditsPages | opensiddur/converters/jps1917/convert_wikisource.py:365-371 | the result is sorted, without duplicates, and holds exactly the names credited on some page of the range, each page asked once in order |
| ConvertWikisource.CollectCredits | opensiddur/converters/jps1917/convert_wikisource.py:366-370 | the loop gathers the union of the credits of every page in the range |
| ConvertWikisource.ReadPageCredits | opensiddur/converters/jps1917/convert_wikisource.py:368-370 | a page without credits adds nothing; otherwise its names are added |
| ConvertWikisource.CreditsOfPage | opensiddur/importer/agent/tools.py:21-29 | the credits tool answers every page number with that page's credits |
| ConvertWikisource.UnionNext | opensiddur/converters/jps1917/convert_wikisource.py:367-370 | one more page adds exactly its credits |
| ConvertWikisource.UnionMeans | opensiddur/converters/jps1917/convert_wikisource.py:365-371 | a name is gathered exactly when some page of the range credits it |
| ConvertWikisource.UnionSplit | opensiddur/converters/jps1917/convert_wikisource.py:367-370 | the credits of a range are those of its two halves together |
| ConvertWikisource.EmptyRangeNoCredits | opensiddur/converters/jps1917/convert_wikisource.py:367 | an empty range gathers no credit |
| ConvertWikisource.CreditsAreClean | opensiddur/converters/jps1917/convert_wikisource.py:368 | every gathered name is non-empty and stripped, as the credits tool returns them |
| ConvertWikisource.AltSubMeans | opensiddur/converters/jps1917/convert_wikisource.py:387-394 | the alternative subtitle element is empty exactly when the subtitle is falsy, and otherwise holds it |
| ConvertWikisource.TranscribersMeans | opensiddur/converters/jps1917/convert_wikisource.py:401 | the credited transcribers are the credits without `Wikisource-bot`, in order, and all of them when the bot is absent |
| ConvertWikisource.FilterKeepsAll | opensiddur/converters/jps1917/convert_wikisource.py:401 | without the bot nothing is filtered out |
| ConvertWikisource.HeaderCreditsTranscriber | opensiddur/converters/jps1917/convert_wikisource.py:396-411 | every credited name other than the bot gets its `respStmt` in the header |
| ConvertWikisource.Header | opensiddur/converters/jps1917/convert_wikisource.py:373-442 | the TEI header text `header` builds; ConvertWikisource.HeaderCreditsTranscriber and HeaderDeclaresProject state the credits and the project declaration |
| ConvertWikisource.RespStmtsCredit | opensiddur/converters/jps1917/convert_wikisource.py:396-402 | the joined statements hold a statement for every such name |
| ConvertWikisource.RespStmtsInHeader | opensiddur/converters/jps1917/convert_wikisource.py:404-411 | whatever the statements hold, the header holds |
| ConvertWikisource.InLayout | opensiddur/converters/jps1917/convert_wikisource.py:404-442 | the header layout holds its statements |
| ConvertWikisource.HeaderDeclaresProject | opensiddur/converters/jps1917/convert_wikisource.py:417 | the header always holds the `idno` naming the text |
| ConvertWikisource.IdnoInLayout | opensiddur/converters/jps1917/convert_wikisource.py:417 | the header layout holds the `idno` |
| ConvertWikisource.IdnoNamesProject | opensiddur/converters/jps1917/convert_wikisource.py:417 | the `idno` URN, parsed back, names the text URN and the project after `@` |
| ConvertWikisource.TeiFileHolds | opensiddur/converters/jps1917/convert_wikisource.py:444-461 | the TEI file holds its header and its body |
| ConvertWikisource.MediawikiXmlToTei | opensiddur/converters/jps1917/convert_wikisource.py:463-470 | raises exactly without a main output; front and body are the main output when it holds `tei:front` / `tei:body` and empty otherwise; the stand-off is the `standoff` output exactly when it exists and holds `tei:note` |
| ConvertWikisource.Transclude | opensiddur/converters/jps1917/convert_wikisource.py:541 | a transclusion of a file name without a newline is one line |
| ConvertWikisource.TransclusionLines | opensiddur/converters/jps1917/convert_wikisource.py:540-543 | the joined transclusions split back into one line per part, in order |
| ConvertWikisource.TeiResultMeans | opensiddur/converters/jps1917/convert_wikisource.py:496-518 | the book fails exactly when its processing fails, with that error; otherwise the file holds the header and the body |
| ConvertWikisource.TeiResult | opensiddur/converters/jps1917/convert_wikisource.py:444-461 | `tei_file` over what `process_mediawiki` returned; ConvertWikisource.TeiResultMeans states the error case and the parts of the file |
| ConvertWikisource.TeiHolds | opensiddur/converters/jps1917/convert_wikisource.py:508-511 | the TEI file holds what its header or body holds |
| ConvertWikisource.BookFile | opensiddur/converters/jps1917/convert_wikisource.py:496-518 | a book's file is its header with the book's range credits and the result of processing its pages into `body` |
| ConvertWikisource.IndexCredits | opensiddur/converters/jps1917/convert_wikisource.py:522-525 | an index with both pages gets its range credits, otherwise none |
| ConvertWikisource.IndexFile | opensiddur/converters/jps1917/convert_wikisource.py:521-569 | an index's file is its header with those credits over its processed front matter or nothing, with the body replaced by the transclusion list |
| ConvertWikisource.WithIndexBodyMeans | opensiddur/converters/jps1917/convert_wikisource.py:533-551 | the body replacement fails only when the processing does, and the body transcludes every part |
| ConvertWikisource.TeiCreditsTranscriber | opensiddur/converters/jps1917/convert_wikisource.py:396-411 | a successful file credits every transcriber but the bot |
| ConvertWikisource.IndexFileHolds | opensiddur/converters/jps1917/convert_wikisource.py:540-556 | an index file holds its header and the transclusion of every part |
| ConvertWikisource.TransclusionInBody | opensiddur/converters/jps1917/convert_wikisource.py:540-550 | the index body holds the transclusion of every part |
| ConvertWikisource.TranscludedFilesWritten | opensiddur/converters/jps1917/convert_wikisource.py:563-567 | every part an index transcludes is itself written |
| ConvertWikisource.TranscludedAmong | opensiddur/converters/jps1917/convert_wikisource.py:563-567 | every part of a list is among the files it writes |
| EncodingAgent.PageContent | opensiddur/converters/agent/text_encoding_agent.py:275-288 | a page's content is its file's text, or empty when the page tool finds no page |
| EncodingAgent.EncodePageNode | opensiddur/converters/agent/text_encoding_agent.py:105-142 | a successful encoding replaces the current encoding and adds one assistant message; a failure replaces the errors with one message; nothing else changes |
| EncodingAgent.CheckCompletionNode | opensiddur/converters/agent/text_encoding_agent.py:145-196 | the next action is `check_section_completion` exactly when the check succeeds and says complete, and then the messages are kept; otherwise it is `encode_page` with one message added |
| EncodingAgent.CheckSectionCompletionNode | opensiddur/converters/agent/text_encoding_agent.py:199-265 | at or past the end page it goes to `validate_xml` and changes nothing else; before it the current encoding is appended to the final XML, one message is added, and it goes to `validate_xml` exactly when the check says complete, else to `advance_page` |
| EncodingAgent.AdvancePageNode | opensiddur/converters/agent/text_encoding_agent.py:268-297 | with no current content the current page is loaded without moving; otherwise the page rises by one and previous and current shift; the next page is always reloaded and the next action is `encode_page` |
| EncodingAgent.ValidateXmlNode | opensiddur/converters/agent/text_encoding_agent.py:300-330 | the error count rises by one exactly when the linter returns errors; the linter's errors replace the old ones (cleared when none), and a linter failure leaves one message |
| EncodingAgent.FixErrorsNode | opensiddur/converters/agent/text_encoding_agent.py:333-376 | at the limit the next action is `done`, a limit message is appended and the XML is kept; a successful patch replaces the XML and clears the errors; a failed one appends one error; the count never changes |
| EncodingAgent.RouteNextAction | opensiddur/converters/agent/text_encoding_agent.py:379-381 | the next action's name, or `encode_page` when there is none |
| EncodingAgent.ShouldFixErrors | opensiddur/converters/agent/text_encoding_agent.py:384-389 | `fix_errors` exactly when there are errors and attempts left, otherwise END |
| EncodingAgent.Successor | opensiddur/converters/agent/text_encoding_agent.py:406-444 | an unconditional edge always leads to its target; a conditional one leads where its router's answer maps, and fails when the answer is not in its map |
| EncodingAgent.InitialState | opensiddur/converters/agent/text_encoding_agent.py:463-487 | the run starts at the start page with no content, no next action, no XML, no errors, a zero count and one system message |
| EncodingAgent.NodesKeepInputs | opensiddur/converters/agent/text_encoding_agent.py:105-376 | every node keeps the run's inputs and only extends the messages |
| EncodingAgent.RunNode | opensiddur/converters/agent/text_encoding_agent.py:105-376 | one node of the agent; EncodingAgent.NodesKeepInputs states that every node keeps the run's inputs and only extends the messages |
| EncodingAgent.FixedEdges | opensiddur/converters/agent/text_encoding_agent.py:408-447 | the entry is `advance_page`, and encode→check completion, advance→encode and fix→validate are unconditional |
| EncodingAgent.StepsNeverFail | opensiddur/converters/agent/text_encoding_agent.py:379-441 | every router answer a node can produce is in its edge's map |
| EncodingAgent.Step | opensiddur/converters/agent/text_encoding_agent.py:379-441 | one node of the graph and the edge after it; EncodingAgent.StepsNeverFail states that every router answer a node can produce is in its edge's map, so the edge is always found |
| EncodingAgent.CompletionRoute | opensiddur/converters/agent/text_encoding_agent.py:411-418 | after the completion check the graph goes back to encoding exactly when the node asked for it, else to the section check |
| EncodingAgent.SectionRoute | opensiddur/converters/agent/text_encoding_agent.py:421-428 | after the section check it advances the page exactly when the node asked for it, else validates |
| EncodingAgent.ValidationRoute | opensiddur/converters/agent/text_encoding_agent.py:434-441 | after validation it fixes exactly when errors remain and attempts are left, else ends |
| EncodingAgent.FixingHasAttemptsLeft | opensiddur/converters/agent/text_encoding_agent.py:337-386 | the fix node is only reached with attempts left, so its limit branch is never taken from the graph |
| EncodingAgent.ValidationRoundUsesAttempt | opensiddur/converters/agent/text_encoding_agent.py:313-318 | a linter round that leads to fixing uses one attempt, so the attempts left strictly decrease |
| EncodingAgent.LinterFailureKeepsCount | opensiddur/converters/agent/text_encoding_agent.py:325-330 | a linter that raises leads to fixing without using an attempt, and the fix leads back to validation |
| EncodingAgent.FirstStepLoadsStartPage | opensiddur/converters/agent/text_encoding_agent.py:271-297 | the first step of a fresh run loads the start page and the one after it, with no previous page |
| EncodingAgent.EmptyPageStalls | opensiddur/converters/agent/text_encoding_agent.py:271-276 | a page the tool cannot find leaves the run on the same page with no content |
| EncodingAgent.PageMovesByOne | opensiddur/converters/agent/text_encoding_agent.py:280-292 | only `advance_page` moves the page, and by exactly one |
| EncodingAgent.FinalXmlWriters | opensiddur/converters/agent/text_encoding_agent.py:199-376 | only the section check and the fix write the final XML, and the section check only appends to it |
| MediaWikiHandlers.GetDefault | opensiddur/importer/jps1917/mediawiki_processor.py:248 | `template.get(key, default)` gives the default when no parameter answers to the key |
| MediaWikiHandlers.GetLast | opensiddur/importer/jps1917/mediawiki_processor.py:248-298 | otherwise it gives the last parameter answering to the key, as `name=value` when the name was written |
| MediaWikiHandlers.GetSnoc | opensiddur/importer/jps1917/mediawiki_processor.py:248 | a parameter added at the end wins when it answers to the key |
| MediaWikiHandlers.BuiltinTemplatesNeverFail | opensiddur/importer/jps1917/mediawiki_processor.py:62-108 | every registered template has a built-in handler, and applying it never raises |
| MediaWikiHandlers.BuiltinTemplates | opensiddur/importer/jps1917/mediawiki_processor.py:62-108 | the template handler table `_initialize_template_handlers` builds; MediaWikiHandlers.BuiltinTemplatesNeverFail states that none of its handlers raises |
| MediaWikiHandlers.ApplyTemplate | opensiddur/importer/jps1917/mediawiki_processor.py:246-425 | running a template handler: the built-in ones turn `verse`, `nop`, `larger` and the other templates of lines 246-425 into markup, with the corrected `verse` text lookup; MediaWikiHandlers.BuiltinTemplatesNeverFail states that only a caller's handler can raise |
| MediaWikiHandlers.StripDigits | opensiddur/importer/jps1917/mediawiki_processor.py:248 | a positional parameter's name is its own stripped form |
| MediaWikiHandlers.GapDefaults | opensiddur/importer/jps1917/mediawiki_processor.py:382-388 | `{{gap}}` gives a bare `<gap/>`, and `{{gap\|n}}` gives `<gap length="n"/>` |
| MediaWikiHandlers.FirstOfOne | opensiddur/importer/jps1917/mediawiki_processor.py:248 | the one positional parameter is parameter 1 |
| MediaWikiHandlers.AsterisksDefault | opensiddur/importer/jps1917/mediawiki_processor.py:356-359 | `{{***}}` counts three asterisks by default |
| MediaWikiHandlers.BarDefault | opensiddur/importer/jps1917/mediawiki_processor.py:377-380 | `{{bar}}` is six long by default |
| MediaWikiHandlers.DhrDefaults | opensiddur/importer/jps1917/mediawiki_processor.py:316-323 | `{{dhr}}` gives a bare `<dhr/>`, and `{{dhr\|v}}` gives `<dhr value="v"/>` |
| MediaWikiHandlers.WrapArgument | opensiddur/importer/jps1917/mediawiki_processor.py:246-284 | each wrapping template puts its first parameter inside its element |
| MediaWikiHandlers.ArgNames | opensiddur/importer/jps1917/mediawiki_processor.py:296-298 | the names the verse handler asks for are their own stripped forms |
| MediaWikiHandlers.VerseXmlFull | opensiddur/importer/jps1917/mediawiki_processor.py:299-304 | with a chapter and a verse both attributes are written, around the text |
| MediaWikiHandlers.GetOfThree | opensiddur/importer/jps1917/mediawiki_processor.py:296-298 | the lookup over three parameters takes the last one answering |
| MediaWikiHandlers.VersePositional | opensiddur/importer/jps1917/mediawiki_processor.py:294-304 | `{{verse\|c\|v\|t}}` gives `<verse chapter="c" verse="v">t</verse>` |
| MediaWikiHandlers.VerseNamed | opensiddur/importer/jps1917/mediawiki_processor.py:294-304 | with the intended text lookup, `{{verse\|chapter=c\|verse=v\|text=t}}` gives the same element with the text alone |
| MediaWikiHandlers.VerseNamedAsWritten | opensiddur/importer/jps1917/mediawiki_processor.py:298 | as written, a named `text=t` is found as `str(param)`, so the element's text is `text=t` |
| MediaWikiHandlers.NamedChapterVerse | opensiddur/importer/jps1917/mediawiki_processor.py:296-297 | the chapter and verse handlers drop the written-out names |
| MediaWikiHandlers.DropWrittenName | opensiddur/importer/jps1917/mediawiki_processor.py:296-297 | replacing the written name removes exactly that prefix when it does not recur |
| MediaWikiHandlers.OverfloatLeftNamed | opensiddur/importer/jps1917/mediawiki_processor.py:390-411 | the named form `{{overfloat left\|align=a\|padding=p\|text=t}}` gives both attributes and the bare text |
| MediaWikiHandlers.NamedOverfloatGet | opensiddur/importer/jps1917/mediawiki_processor.py:393-395 | the named parameters are found with their written names |
| MediaWikiHandlers.OverfloatNames | opensiddur/importer/jps1917/mediawiki_processor.py:393-395 | the names asked for are their own stripped forms |
| MediaWikiHandlers.OverfloatFromParts | opensiddur/importer/jps1917/mediawiki_processor.py:393-411 | whatever the parameters, once cleaned to a non-empty align and padding the element carries both |
| MediaWikiHandlers.OverfloatXmlFull | opensiddur/importer/jps1917/mediawiki_processor.py:403-411 | with both attributes the element is `<overfloat_left align=".." padding="..">` around the text |
| MediaWikiHandlers.JoinTwo | opensiddur/importer/jps1917/mediawiki_processor.py:409 | two attributes are joined with a leading space and one between |
| MediaWikiHandlers.CleanWrittenName | opensiddur/importer/jps1917/mediawiki_processor.py:398-400 | a cleaned value loses exactly its written name |
| MediaWikiHandlers.PutKeys | opensiddur/importer/jps1917/mediawiki_processor.py:561 | assigning a dictionary key keeps the first insertion order and adds a new key at the end |
| MediaWikiHandlers.PutLookup | opensiddur/importer/jps1917/mediawiki_processor.py:561 | after assigning a key it answers with the new value, and other keys are unchanged |
| MediaWikiHandlers.FirstOccurrencesDistinct | opensiddur/importer/jps1917/mediawiki_processor.py:555-562 | the keys of the attribute dictionary are distinct |
| MediaWikiHandlers.AttrDictMeans | opensiddur/importer/jps1917/mediawiki_processor.py:555-562 | the attribute dictionary lists each name once, in order of first appearance, with the value of its last appearance |
| MediaWikiHandlers.SectionAttrs | opensiddur/importer/jps1917/mediawiki_processor.py:472-479 | the section handler keeps exactly the `begin` and `end` attributes, in order, repeats included |
| MediaWikiHandlers.BuiltinTagsNeverFail | opensiddur/importer/jps1917/mediawiki_processor.py:110-130 | every registered tag has a built-in handler, and applying it never raises |
| MediaWikiHandlers.BuiltinTags | opensiddur/importer/jps1917/mediawiki_processor.py:110-130 | the tag handler table `_initialize_tag_handlers` builds; MediaWikiHandlers.BuiltinTagsNeverFail states that none of its handlers raises |
| MediaWikiHandlers.ApplyTag | opensiddur/importer/jps1917/mediawiki_processor.py:467-553 | running a tag handler: a built-in one rewrites the tag and its processed contents as markup (an element of the same name, `<br/>` for `<br>`, the section markers), while a caller's handler may raise; MediaWikiHandlers.BuiltinTagsNeverFail states that the built-in ones never raise |
| MediaWikiHandlers.PlainTags | opensiddur/importer/jps1917/mediawiki_processor.py:467-553 | a tag without attributes is written back around its contents; `br` is empty and `section` bare |
| MediaWikiHandlers.SectionKeepsBounds | opensiddur/importer/jps1917/mediawiki_processor.py:472-484 | a section with only begin and end attributes keeps them all |
| MediaWikiPreprocess.TailFacts | opensiddur/importer/jps1917/mediawiki_processor.py:572 | the shape of the `</noinclude>` pattern |
| MediaWikiPreprocess.SpaceRun | opensiddur/importer/jps1917/mediawiki_processor.py:572 | `\s*` matches the longest run of whitespace, stopping at the first other character |
| MediaWikiPreprocess.SpaceRunOf | opensiddur/importer/jps1917/mediawiki_processor.py:572 | the run over whitespace followed by text is exactly that whitespace |
| MediaWikiPreprocess.FixNoincludeAt | opensiddur/importer/jps1917/mediawiki_processor.py:572-581 | `</noinclude>`, whitespace and a character become the tag, one newline and the character |
| MediaWikiPreprocess.FixNoincludeLineBreaks | opensiddur/importer/jps1917/mediawiki_processor.py:568-583 | the `re.sub` that puts one newline between `</noinclude>` and the next non-space character; MediaWikiPreprocess.FixNoincludeAt states its effect at each match |
| MediaWikiPreprocess.FixNoincludeAtEnd | opensiddur/importer/jps1917/mediawiki_processor.py:572-581 | a closing tag followed only by whitespace is left alone |
| MediaWikiPreprocess.FixPlain | opensiddur/importer/jps1917/mediawiki_processor.py:572-581 | text without `<` is copied through |
| MediaWikiPreprocess.FixNoincludeAbsent | opensiddur/importer/jps1917/mediawiki_processor.py:568-583 | content without `</noinclude>` is unchanged |
| MediaWikiPreprocess.FixHead | opensiddur/importer/jps1917/mediawiki_processor.py:581 | the first character is kept |
| MediaWikiPreprocess.FixStartsLike | opensiddur/importer/jps1917/mediawiki_processor.py:581 | a prefix without `<` is kept |
| MediaWikiPreprocess.StartsWithClose | opensiddur/importer/jps1917/mediawiki_processor.py:572 | where the closing tag can begin |
| MediaWikiPreprocess.FixNoincludeIdempotent | opensiddur/importer/jps1917/mediawiki_processor.py:568-583 | fixing the line breaks twice is fixing them once |
| MediaWikiPreprocess.FixNoincludeKeepsText | opensiddur/importer/jps1917/mediawiki_processor.py:568-583 | the fix only changes whitespace |
| MediaWikiPreprocess.CloseKeepsText | opensiddur/importer/jps1917/mediawiki_processor.py:578 | one replacement only changes whitespace |
| MediaWikiPreprocess.PlainKeepsText | opensiddur/importer/jps1917/mediawiki_processor.py:581 | copying a character keeps the text |
| MediaWikiPreprocess.FixCons | opensiddur/importer/jps1917/mediawiki_processor.py:581 | where no match starts, the first character is copied |
| MediaWikiPreprocess.ConsKeepsText | opensiddur/importer/jps1917/mediawiki_processor.py:581 | text is kept under copying one character |
| MediaWikiPreprocess.KeepsTextStep | opensiddur/importer/jps1917/mediawiki_processor.py:578 | a whitespace run replaced by a newline keeps the text |
| MediaWikiPreprocess.CollapseHead | opensiddur/importer/jps1917/mediawiki_processor.py:588-590 | collapsing keeps the first character |
| MediaWikiPreprocess.CollapseNoDouble | opensiddur/importer/jps1917/mediawiki_processor.py:588-590 | `re.sub(' +', ' ')` leaves no two spaces in a row, and does not create a doubled newline |
| MediaWikiPreprocess.CollapseNoop | opensiddur/importer/jps1917/mediawiki_processor.py:588-590 | content without a doubled run is unchanged |
| MediaWikiPreprocess.CollapseKeepsText | opensiddur/importer/jps1917/mediawiki_processor.py:588-590 | collapsing whitespace keeps the other characters |
| MediaWikiPreprocess.NoDoubleInfix | opensiddur/importer/jps1917/mediawiki_processor.py:591 | a slice of content without doubled runs has none |
| MediaWikiPreprocess.NormalizeWhitespaceShape | opensiddur/importer/jps1917/mediawiki_processor.py:585-591 | the result has no double spaces, no double newlines and no leading or trailing whitespace |
| MediaWikiPreprocess.NormalizeWhitespace | opensiddur/importer/jps1917/mediawiki_processor.py:585-591 | runs of spaces and of newlines become one and the ends are stripped; MediaWikiPreprocess.NormalizeWhitespaceShape and NormalizeWhitespaceIdempotent state the result and its idempotence |
| MediaWikiPreprocess.NormalizeWhitespaceIdempotent | opensiddur/importer/jps1917/mediawiki_processor.py:585-591 | normalizing twice is normalizing once |
| MediaWikiPreprocess.NormalizeWhitespaceKeepsText | opensiddur/importer/jps1917/mediawiki_processor.py:585-591 | normalizing only changes whitespace |
| MediaWikiPreprocess.StripKeepsText | opensiddur/importer/jps1917/mediawiki_processor.py:591 | `strip()` only removes whitespace |
| MediaWikiPreprocess.MarkerFacts | opensiddur/importer/jps1917/mediawiki_processor.py:598-605 | the shape of `{{nop}}`, its marker and the blank line |
| MediaWikiPreprocess.BreaksPlain | opensiddur/importer/jps1917/mediawiki_processor.py:602 | content without newlines is copied through |
| MediaWikiPreprocess.NotAfterMarker | opensiddur/importer/jps1917/mediawiki_processor.py:602 | the look-behind fails after a character other than `_` |
| MediaWikiPreprocess.AfterMarker | opensiddur/importer/jps1917/mediawiki_processor.py:602 | the look-behind holds right after the marker |
| MediaWikiPreprocess.ProtectHead | opensiddur/importer/jps1917/mediawiki_processor.py:598 | protecting rewrites the head exactly when it is `{{nop}}` |
| MediaWikiPreprocess.ProtectStartsWithMarker | opensiddur/importer/jps1917/mediawiki_processor.py:598 | protected content starts with the marker exactly when it started with `{{nop}}` |
| MediaWikiPreprocess.ParagraphsAgree | opensiddur/importer/jps1917/mediawiki_processor.py:593-607 | the replace, sub and restore sequence equals one left-to-right pass that turns each blank line not next to `{{nop}}` into `<p/>` and a newline |
| MediaWikiPreprocess.AgreeAtNop | opensiddur/importer/jps1917/mediawiki_processor.py:598-605 | at `{{nop}}` both keep it |
| MediaWikiPreprocess.AgreeAtBlank | opensiddur/importer/jps1917/mediawiki_processor.py:602 | at a blank line away from `{{nop}}` both write the paragraph mark |
| MediaWikiPreprocess.BlankProtected | opensiddur/importer/jps1917/mediawiki_processor.py:598 | protecting a blank line keeps it |
| MediaWikiPreprocess.AgreeElsewhere | opensiddur/importer/jps1917/mediawiki_processor.py:602 | elsewhere both copy the character |
| MediaWikiPreprocess.NoBreakHere | opensiddur/importer/jps1917/mediawiki_processor.py:602 | where the pass copies, the regular expression does not match |
| MediaWikiPreprocess.ConvertParagraphBreaksMeans | opensiddur/importer/jps1917/mediawiki_processor.py:593-607 | for content without `_`, the paragraph conversion is that single pass |
| MediaWikiPreprocess.ConvertParagraphBreaks | opensiddur/importer/jps1917/mediawiki_processor.py:593-607 | the three steps of `_convert_paragraph_breaks`: protect `{{nop}}`, turn each blank line into a paragraph indicator, restore `{{nop}}`; MediaWikiPreprocess.ConvertParagraphBreaksMeans relates them to the one-pass definition, where a blank line next to a `{{nop}}` is kept |
| MediaWikiPreprocess.ParagraphsNoBlank | opensiddur/importer/jps1917/mediawiki_processor.py:602 | content without a blank line is unchanged |
| MediaWikiPreprocess.NoBlankSuffix | opensiddur/importer/jps1917/mediawiki_processor.py:602 | no suffix of such content holds a blank line |
| MediaWikiPreprocess.Run | opensiddur/importer/jps1917/mediawiki_processor.py:614 | a character-class run is maximal |
| MediaWikiPreprocess.Terminated | opensiddur/importer/jps1917/mediawiki_processor.py:614 | a run ended by `;` |
| MediaWikiPreprocess.EntityAt | opensiddur/importer/jps1917/mediawiki_processor.py:614 | an entity match starts with `&`, ends with `;` and is at least three characters |
| MediaWikiPreprocess.EntityInside | opensiddur/importer/jps1917/mediawiki_processor.py:614 | an entity holds no second `&` |
| MediaWikiPreprocess.RunPrefix | opensiddur/importer/jps1917/mediawiki_processor.py:614 | a run ended inside a prefix ends there in any extension |
| MediaWikiPreprocess.RunTrim | opensiddur/importer/jps1917/mediawiki_processor.py:614 | a run ended before the cut ends there in the cut |
| MediaWikiPreprocess.TerminatedPrefix | opensiddur/importer/jps1917/mediawiki_processor.py:614 | a terminated run is found in any extension |
| MediaWikiPreprocess.TerminatedTrim | opensiddur/importer/jps1917/mediawiki_processor.py:614 | and in the prefix it ends |
| MediaWikiPreprocess.EntityPrefix | opensiddur/importer/jps1917/mediawiki_processor.py:617-622 | an entity at the head is matched whatever follows |
| MediaWikiPreprocess.EntityTrim | opensiddur/importer/jps1917/mediawiki_processor.py:622 | the matched entity is an entity on its own |
| MediaWikiPreprocess.EscapedAmp | opensiddur/importer/jps1917/mediawiki_processor.py:627 | `&amp;` is an entity |
| MediaWikiPreprocess.NoBareAppend | opensiddur/importer/jps1917/mediawiki_processor.py:620-630 | a piece without a bare ampersand before content without one leaves none |
| MediaWikiPreprocess.NoBareSuffix | opensiddur/importer/jps1917/mediawiki_processor.py:620-630 | a suffix of content without a bare ampersand has none |
| MediaWikiPreprocess.EscapeAmpersandsNoBare | opensiddur/importer/jps1917/mediawiki_processor.py:609-630 | after escaping, every `&` starts an entity |
| MediaWikiPreprocess.EscapeAmpersands | opensiddur/importer/jps1917/mediawiki_processor.py:609-630 | entities are kept and every other `&` becomes `&amp;`; MediaWikiPreprocess.EscapeAmpersandsNoBare and EscapeAmpersandsIdempotent state that no bare `&` is left and that a second pass changes nothing |
| MediaWikiPreprocess.EntityNoBare | opensiddur/importer/jps1917/mediawiki_processor.py:622-624 | an entity kept as it is adds no bare ampersand |
| MediaWikiPreprocess.EscapeAmpersandsNoop | opensiddur/importer/jps1917/mediawiki_processor.py:609-630 | content whose every `&` starts an entity is unchanged |
| MediaWikiPreprocess.EscapeAmpersandsIdempotent | opensiddur/importer/jps1917/mediawiki_processor.py:609-630 | escaping twice is escaping once |
| MediaWikiPreprocess.EscapeAmpersandsAbsent | opensiddur/importer/jps1917/mediawiki_processor.py:627 | content without `&` is unchanged |
| MediaWikiPreprocess.EscapeAmpersandsKeepsEntity | opensiddur/importer/jps1917/mediawiki_processor.py:622-624 | an entity at the head is kept and the rest escaped |
| MediaWikiProcessor.Kept | opensiddur/importer/jps1917/mediawiki_processor.py:443-445 | a link's namespace, section or fragment is kept exactly when it is non-empty |
| MediaWikiProcessor.RawArgs | opensiddur/importer/jps1917/mediawiki_processor.py:176-225 | a template's parameters are seen one for one, with their source text as value |
| MediaWikiProcessor.SizeOfOne | opensiddur/importer/jps1917/mediawiki_processor.py:165 | the size of a one-node list is the node's |
| MediaWikiProcessor.SourceOfOne | opensiddur/importer/jps1917/mediawiki_processor.py:212 | the text of a one-node list is the node's |
| MediaWikiProcessor.SourceSnoc | opensiddur/importer/jps1917/mediawiki_processor.py:212 | `str(parsed)` is the nodes' texts in order |
| MediaWikiProcessor.UnknownKeptVerbatim | opensiddur/importer/jps1917/mediawiki_processor.py:178-198 | an unknown template or tag is replaced by its own text, processed for nested content, which for one without known content gives it back unchanged |
| MediaWikiProcessor.NestedPlainText | opensiddur/importer/jps1917/mediawiki_processor.py:154-212 | nested processing of plain text gives it back unchanged, at any depth |
| MediaWikiProcessor.PlainTextSeq | opensiddur/importer/jps1917/mediawiki_processor.py:165-212 | the same over the loop on nodes |
| MediaWikiProcessor.NestedNeverFails | opensiddur/importer/jps1917/mediawiki_processor.py:154-212 | with the built-in handlers, nested processing never raises |
| MediaWikiProcessor.SeqNeverFails | opensiddur/importer/jps1917/mediawiki_processor.py:165-210 | the same over the loop on nodes |
| MediaWikiProcessor.NodeNeverFails | opensiddur/importer/jps1917/mediawiki_processor.py:166-206 | the same for one node |
| MediaWikiProcessor.NestedNode | opensiddur/importer/jps1917/mediawiki_processor.py:154-212 | one node of `_process_nested_content`, with the handler's second try on the raw node; MediaWikiProcessor.NodeNeverFails states that with only the built-in handlers and within ten levels it never fails |
| MediaWikiProcessor.BuiltinTemplateSucceeds | opensiddur/importer/jps1917/mediawiki_processor.py:62-108 | a built-in template handler never raises |
| MediaWikiProcessor.BuiltinTagSucceeds | opensiddur/importer/jps1917/mediawiki_processor.py:110-130 | a built-in tag handler never raises |
| MediaWikiProcessor.ParamsNeverFail | opensiddur/importer/jps1917/mediawiki_processor.py:214-227 | processing a copy of the parameters never raises and keeps one value per parameter |
| MediaWikiProcessor.LinkNeverFails | opensiddur/importer/jps1917/mediawiki_processor.py:430-461 | a link is always converted |
| MediaWikiProcessor.TopNode | opensiddur/importer/jps1917/mediawiki_processor.py:697-729 | a top-level node warns exactly when its handler is unknown, and then it is kept as it was with no link; a failed handler is kept and reported; plain text is kept |
| MediaWikiProcessor.Listed | opensiddur/importer/jps1917/mediawiki_processor.py:707-729 | a failure adds exactly one error |
| MediaWikiProcessor.UnknownCountSnoc | opensiddur/importer/jps1917/mediawiki_processor.py:709-722 | one more node adds a warning exactly when it is unknown |
| MediaWikiProcessor.WarningPerUnknown | opensiddur/importer/jps1917/mediawiki_processor.py:697-729 | the pass warns once per unknown template or tag |
| MediaWikiProcessor.TopAll | opensiddur/importer/jps1917/mediawiki_processor.py:697-736 | the top-level pass over the parsed nodes; MediaWikiProcessor.WarningPerUnknown states one warning per unknown template or tag, and UnchangedPage that plain text and unknown nodes come through as they went in, with no error and no link |
| MediaWikiProcessor.BuiltinNoErrors | opensiddur/importer/jps1917/mediawiki_processor.py:697-729 | with the built-in handlers the pass reports no error |
| MediaWikiProcessor.TopNodeNoError | opensiddur/importer/jps1917/mediawiki_processor.py:701-729 | the same for one node |
| MediaWikiProcessor.UnchangedPage | opensiddur/importer/jps1917/mediawiki_processor.py:697-736 | a page of plain text and unknown nodes comes out as it went in, with no error and no link |
| MediaWikiProcessor.DefaultPipeline | opensiddur/importer/jps1917/mediawiki_processor.py:132-147 | the default preprocessors run noinclude fix, paragraphs, whitespace and ampersands in that order, the metadata step leaves the content alone, and the default postprocessors change nothing |
| MediaWikiProcessor.DefaultHandlersBuiltin | opensiddur/importer/jps1917/mediawiki_processor.py:54-130 | the fresh handler tables are all built in |
| MediaWikiProcessor.ConvertWrapped | opensiddur/importer/jps1917/mediawiki_processor.py:743-756 | every result is wrapped in `<mediawiki>` |
| MediaWikiProcessor.Convert | opensiddur/importer/jps1917/mediawiki_processor.py:743-760 | `process_wikitext` as a value, with the corrected `verse` lookup of the Findings row for mediawiki_processor.py:298: preprocessing, parsing, the top-level pass and postprocessing, with a fatal exception giving the empty document; MediaWikiProcessor.ConvertWrapped and ConvertKeepsLinks state the wrapping and the links |
| MediaWikiProcessor.ConvertKeepsLinks | opensiddur/importer/jps1917/mediawiki_processor.py:745-760 | links already captured stay in front; the result lists all captured links, or none after a fatal error, which is then the last error |
| MediaWikiProcessor.BuiltinConversion | opensiddur/importer/jps1917/mediawiki_processor.py:667-751 | with the built-in handlers a parsed page converts without errors, with one warning per unknown node, its links appended, and its processed text wrapped |
| MediaWikiProcessor.PlainTextPage | opensiddur/importer/jps1917/mediawiki_processor.py:797-800 | a page whose preprocessed text is plain converts to that text wrapped, with no warning, error or link |
| MediaWikiProcessor.NoUnknown | opensiddur/importer/jps1917/mediawiki_processor.py:709-722 | plain text holds no unknown node |
| MediaWikiProcessor.Processor.constructor | opensiddur/importer/jps1917/mediawiki_processor.py:46-60 | a new processor has the built-in tables, the default pipelines and no links |
| MediaWikiProcessor.Processor.AddTemplateHandler | opensiddur/importer/jps1917/mediawiki_processor.py:763-765 | registers or replaces one template handler and changes nothing else |
| MediaWikiProcessor.Processor.AddTagHandler | opensiddur/importer/jps1917/mediawiki_processor.py:767-769 | registers or replaces one tag handler and changes nothing else |
| MediaWikiProcessor.Processor.AddPreprocessor | opensiddur/importer/jps1917/mediawiki_processor.py:771-773 | appends one preprocessor and changes nothing else |
| MediaWikiProcessor.Processor.AddPostprocessor | opensiddur/importer/jps1917/mediawiki_processor.py:775-777 | appends one postprocessor and changes nothing else |
| MediaWikiProcessor.Processor.GetWikilinks | opensiddur/importer/jps1917/mediawiki_processor.py:779-781 | returns the captured links |
| MediaWikiProcessor.Processor.ClearWikilinks | opensiddur/importer/jps1917/mediawiki_processor.py:783-785 | forgets the links and changes nothing else |
| MediaWikiProcessor.Processor.ProcessWikitext | opensiddur/importer/jps1917/mediawiki_processor.py:667-761 | the result and the new links are the conversion of the page from the old tables, pipelines and links; the tables and pipelines are unchanged |
| MediaWikiProcessor.RunPreprocessors | opensiddur/importer/jps1917/mediawiki_processor.py:683-688 | the loop runs the preprocessors in order |
| MediaWikiProcessor.RunTopPass | opensiddur/importer/jps1917/mediawiki_processor.py:697-733 | the loop over top-level nodes computes the pass |
| MediaWikiProcessor.RunPostprocessors | opensiddur/importer/jps1917/mediawiki_processor.py:739-740 | the loop runs the postprocessors in order |
| MediaWikiProcessor.ProcessPage | opensiddur/importer/jps1917/mediawiki_processor.py:797-800 | a page is converted by a fresh processor |
| Ordering.LexLessIrreflexive | opensiddur/converters/jps1917/convert_wikisource.py:371 | Python's string order: no string is below itself |
| Ordering.LexLessTrichotomy | opensiddur/converters/jps1917/convert_wikisource.py:371 | any two strings are equal or one is below the other |
| Ordering.LexLessAsymmetric | opensiddur/converters/jps1917/convert_wikisource.py:371 | no two strings are each below the other |
| Ordering.LexLessTransitive | opensiddur/converters/jps1917/convert_wikisource.py:371 | the string order is transitive |
| Ordering.InsertDistinct | opensiddur/converters/jps1917/convert_wikisource.py:371 | inserting into a sorted list without duplicates keeps it so and adds exactly the new element |
| Ordering.SortedDistinct | opensiddur/converters/jps1917/convert_wikisource.py:371 | `sorted(set(...))`: strictly increasing, holding exactly the elements given |
| Ordering.StrictlySortedDistinct | opensiddur/converters/jps1917/convert_wikisource.py:371 | a strictly sorted list has no duplicates |
| Ordering.InsertByKey | opensiddur/exporter/urn.py:214-218 | inserting adds exactly one element and loses none |
| Ordering.InsertByKeySorted | opensiddur/exporter/urn.py:214-218 | inserting into a key-sorted list keeps it sorted |
| Ordering.SortByKey | opensiddur/exporter/urn.py:214-218 | `sorted(key=...)`: ordered by the key and a permutation of the input |
| Ordering.LexLessEqTransitive | opensiddur/converters/1917jps/title_page.py:130 | the non-strict string order is transitive |
| Ordering.InsertByText | opensiddur/converters/1917jps/title_page.py:130 | inserting by a text key adds exactly one element and loses none |
| Ordering.InsertByTextSorted | opensiddur/converters/1917jps/title_page.py:130 | and keeps the list sorted by that key |
| Ordering.SortByText | opensiddur/converters/1917jps/title_page.py:130 | sorting by a text key orders by it and is a permutation |
| Ordering.MinKey | opensiddur/exporter/urn.py:214-220 | the smallest key, taken by some element |
| Ordering.FirstMinIndex | opensiddur/exporter/urn.py:214-220 | the first element with the smallest key; those before it have larger keys |
| Ordering.SortByKeyHead | opensiddur/exporter/urn.py:214-220 | the stable sort puts first the first element with the smallest key |
| Ordering.ListOf | opensiddur/importer/jps1917/template_finder.py:81 | `list(s)` of a set lists each element once |
| Ordering.SortedSet | opensiddur/importer/jps1917/template_finder.py:81-82 | `sorted(list(s))` of a set of strings is strictly increasing with exactly the set's elements |
| Prepare.MapFilenameAsWritten | opensiddur/converters/1917jps/prepare.py:68-84 | as written: the upper-cased name's mapping, or an `Invalid filename` exception for an unmapped name, where the documented contract returns None |
| Prepare.MapFilename | opensiddur/converters/1917jps/prepare.py:68-84 | the documented mapping: defined exactly when the upper-cased name is mapped |
| Prepare.MapFilenameAgrees | opensiddur/converters/1917jps/prepare.py:78-84 | the two agree on mapped names; on unmapped ones the corrected mapping gives None where the code raises |
| Prepare.UpperOfLower | opensiddur/converters/1917jps/prepare.py:78 | upper-casing ignores an earlier lower-casing |
| Prepare.MapFilenameCaseInsensitive | opensiddur/converters/1917jps/prepare.py:78 | names that differ only in case map alike |
| Prepare.RunEnd | opensiddur/converters/1917jps/prepare.py:100 | `\s+` matches the longest whitespace run |
| Prepare.NextNewline | opensiddur/converters/1917jps/prepare.py:100 | the first newline in a span, if any |
| Prepare.GreedySound | opensiddur/converters/1917jps/prepare.py:100 | every count of groups up to the greedy count is a match of `(\n\s+)` repeated that often |
| Prepare.GreedyComplete | opensiddur/converters/1917jps/prepare.py:100 | no match of more groups exists than the greedy count |
| Prepare.BreakAtIsMatch | opensiddur/converters/1917jps/prepare.py:100 | a page break starts exactly where `(\n\s+){4,}` matches, and then it takes the longest match |
| Prepare.PageBreaks | opensiddur/converters/1917jps/prepare.py:100 | the left-to-right `re.sub` that replaces each match by a page break; Prepare.BreakAtIsMatch and NoMatchUnchanged state where it replaces and that text without a match is unchanged |
| Prepare.NoMatchUnchanged | opensiddur/converters/1917jps/prepare.py:100 | where the pattern matches nowhere, the content is copied unchanged |
| Prepare.GreedyAtMostNewlines | opensiddur/converters/1917jps/prepare.py:100 | each group takes a newline |
| Prepare.NewlineCountSplit | opensiddur/converters/1917jps/prepare.py:100 | newline counts add over a split |
| Prepare.FewNewlinesUnchanged | opensiddur/converters/1917jps/prepare.py:100 | content with fewer than four newlines is unchanged |
| Prepare.ProcessContent | opensiddur/converters/1917jps/prepare.py:87-113 | the content `process_file` writes; Prepare.FewNewlinesUnchanged states that content with fewer than four newlines is written unchanged |
| Prepare.NewlineCountInfix | opensiddur/converters/1917jps/prepare.py:100 | a slice holds no more newlines than the whole |
| Prepare.SuffixOfXml | opensiddur/converters/1917jps/prepare.py:137 | `Path.suffix` of a longer name ending `.xml` is `.xml` |
| Prepare.ProcessedXml | opensiddur/converters/1917jps/prepare.py:134-138 | a `*.xml` glob match is processed exactly when it is more than the bare extension |
| Prepare.PreparePlanJobs | opensiddur/converters/1917jps/prepare.py:134-153 | every job is a processed input whose stem maps, written to the mapped name with `.xml` |
| Prepare.PreparePlan | opensiddur/converters/1917jps/prepare.py:115-153 | the files `prepare` converts, in listing order, each under its mapped name; Prepare.PreparePlanJobs and PrepareJobs state which jobs there are |
| Prepare.PrepareJobs | opensiddur/converters/1917jps/prepare.py:134-153 | the loop computes the corrected plan |
| Prepare.Prepare | opensiddur/converters/1917jps/prepare.py:115-155 | the preparation runs the corrected plan with the built-in mapping |
| Prepare.AsWrittenAgreesWhenMapped | opensiddur/converters/1917jps/prepare.py:134-153 | when every processed name maps, the code as written does what the plan says |
| Prepare.AsWrittenStopsAtUnmapped | opensiddur/converters/1917jps/prepare.py:144-147 | as written the first unmapped name raises out of the loop: the jobs before it are done and no later ones, and the skip branch is never reached |
| Prepare.RaisesAt | opensiddur/converters/1917jps/prepare.py:144 | the raise at that name |
| Prepare.AsWrittenRaisesLast | opensiddur/converters/1917jps/prepare.py:144 | a raise at the last name |
| Prepare.StaysRaised | opensiddur/converters/1917jps/prepare.py:144 | once raised, nothing more runs |
| Prepare.UnmappedSkipped | opensiddur/converters/1917jps/prepare.py:145-147 | the corrected plan skips an unmapped name |
| Prepare.PlanSkipsLast | opensiddur/converters/1917jps/prepare.py:145-147 | the same at the last name |
| TemplateFinder.ParamMap | opensiddur/importer/jps1917/template_finder.py:255-256 | an example's parameter dictionary has exactly the stripped parameter names as keys |
| TemplateFinder.TemplateItems | opensiddur/importer/jps1917/template_finder.py:234-235 | one item per template, in order |
| TemplateFinder.TagItems | opensiddur/importer/jps1917/template_finder.py:181-182 | one item per tag, in order |
| TemplateFinder.TallyItems | opensiddur/importer/jps1917/template_finder.py:181-211 | the loop over the items computes the tally |
| TemplateFinder.ExtractTemplates | opensiddur/importer/jps1917/template_finder.py:220-264 | unparsable wikitext gives an empty dictionary; otherwise the tally of its templates |
| TemplateFinder.ExtractTags | opensiddur/importer/jps1917/template_finder.py:167-217 | the same for tags |
| TemplateFinder.Take | opensiddur/importer/jps1917/template_finder.py:204-252 | the first n elements, or all when fewer |
| TemplateFinder.TallyMeans | opensiddur/importer/jps1917/template_finder.py:234-258 | a name is tallied exactly when some item has it; its count is its number of occurrences, its examples are the first two, and its parameters are those of its occurrences |
| TemplateFinder.Tally | opensiddur/importer/jps1917/template_finder.py:181-211 | the dictionary one page's loop builds; TemplateFinder.TallyMeans states its keys, counts, examples and parameters, and TallyItems the loop that computes it |
| TemplateFinder.TallyHasKey | opensiddur/importer/jps1917/template_finder.py:237-242 | a name is tallied exactly when some item has it |
| TemplateFinder.TallyCounts | opensiddur/importer/jps1917/template_finder.py:244-258 | the count is the number of occurrences and the examples are the first two |
| TemplateFinder.TallyNames | opensiddur/importer/jps1917/template_finder.py:247-249 | the parameters are the union of those of its occurrences |
| TemplateFinder.NoOccurrences | opensiddur/importer/jps1917/template_finder.py:237 | a name no item has occurs nowhere |
| TemplateFinder.TallyKeepsTwoExamples | opensiddur/importer/jps1917/template_finder.py:204-252 | no name keeps more than two examples per page |
| TemplateFinder.NoTemplatesNoEntries | opensiddur/importer/jps1917/template_finder.py:232-264 | wikitext without templates gives an empty dictionary |
| TemplateFinder.TallyKeys | opensiddur/importer/jps1917/template_finder.py:182-235 | templates are keyed by stripped name, tags by stripped lower-cased name |
| TemplateFinder.BumpMeans | opensiddur/importer/jps1917/template_finder.py:136-142 | merging one page adds its count and its parameters, records the page, and keeps at most three examples, taking new ones only while fewer than three are kept |
| TemplateFinder.Bump | opensiddur/importer/jps1917/template_finder.py:136-142 | one page merged into a name's totals with at most three examples; TemplateFinder.BumpMeans states it, and the Findings row for lines 141-142 gives the code as written |
| TemplateFinder.MergeCounts | opensiddur/importer/jps1917/template_finder.py:134-135 | the counter gains exactly the page's names |
| TemplateFinder.MergeDetails | opensiddur/importer/jps1917/template_finder.py:134-142 | the details gain exactly the page's names |
| TemplateFinder.MergePage | opensiddur/importer/jps1917/template_finder.py:134-142 | the loop over a page's names computes both merges |
| TemplateFinder.MergeStep | opensiddur/importer/jps1917/template_finder.py:135-142 | one name merged keeps the loop invariant |
| TemplateFinder.CountsStep | opensiddur/importer/jps1917/template_finder.py:135 | the counter part of it |
| TemplateFinder.DetailsStep | opensiddur/importer/jps1917/template_finder.py:136-142 | the details part of it |
| TemplateFinder.MergeAll | opensiddur/importer/jps1917/template_finder.py:134-142 | at the end of the loop both merges are done |
| TemplateFinder.CountsAll | opensiddur/importer/jps1917/template_finder.py:135 | the counter part of it |
| TemplateFinder.DetailsAll | opensiddur/importer/jps1917/template_finder.py:136-142 | the details part of it |
| TemplateFinder.ScanPagesMeans | opensiddur/importer/jps1917/template_finder.py:124-129 | with `get_page` called directly (the corrected loop; see Findings), the pages scanned are consecutive from the start, all present, and the scan stops at the first missing page or at the end |
| TemplateFinder.TemplateScan | opensiddur/importer/jps1917/template_finder.py:126-132 | one tally per page scanned |
| TemplateFinder.TagScan | opensiddur/importer/jps1917/template_finder.py:51-57 | one tally per page scanned |
| TemplateFinder.TemplateScanStep | opensiddur/importer/jps1917/template_finder.py:132 | one more page adds its tally |
| TemplateFinder.TagScanStep | opensiddur/importer/jps1917/template_finder.py:57 | one more page adds its tally |
| TemplateFinder.AggStep | opensiddur/importer/jps1917/template_finder.py:134-142 | one more page merges its tally into the totals |
| TemplateFinder.ScanPagesStep | opensiddur/importer/jps1917/template_finder.py:124-127 | a present page is scanned and the scan goes on |
| TemplateFinder.ScanDone | opensiddur/importer/jps1917/template_finder.py:127-129 | past the end or at a missing page the scan is complete |
| TemplateFinder.ScannedStep | opensiddur/importer/jps1917/template_finder.py:124-144 | one turn of the page loop keeps its invariant |
| TemplateFinder.SortedPages | opensiddur/importer/jps1917/template_finder.py:156 | `sorted(list(pages_used))`: increasing, with exactly the set's pages |
| TemplateFinder.Report | opensiddur/importer/jps1917/template_finder.py:154-157 | every detail is reported with its pages and parameters sorted |
| TemplateFinder.ScanTemplates | opensiddur/importer/jps1917/template_finder.py:124-152 | with `get_page` called directly (the corrected loop; see Findings), the loop scans the pages and accumulates the totals of their tallies |
| TemplateFinder.FindAllTemplates | opensiddur/importer/jps1917/template_finder.py:92-164 | with `get_page` called directly (the corrected half of the Findings row for line 126), the summary counts the pages scanned, holds the aggregated counts and the sorted details, and no error |
| TemplateFinder.ScanTags | opensiddur/importer/jps1917/template_finder.py:49-77 | the corrected loop for tags, as ScanTemplates |
| TemplateFinder.FindAllTags | opensiddur/importer/jps1917/template_finder.py:17-89 | the corrected summary for tags (the corrected half of the Findings row for line 51), as FindAllTemplates |
| TemplateFinder.MergeAt | opensiddur/importer/jps1917/template_finder.py:134-142 | merging a page changes one name's totals exactly by that page's tally |
| TemplateFinder.AggregateKeys | opensiddur/importer/jps1917/template_finder.py:134-137 | counter and details list the same names: those found on some page |
| TemplateFinder.AggregateTotals | opensiddur/importer/jps1917/template_finder.py:135-136 | a name's count and usage are the sum over pages of its counts |
| TemplateFinder.AggregatePages | opensiddur/importer/jps1917/template_finder.py:137 | a name's pages are exactly those where it was found |
| TemplateFinder.AggregateKeepsThreeExamples | opensiddur/importer/jps1917/template_finder.py:140-142 | with the intended limit no name keeps more than three examples |
| TemplateFinder.AsWrittenKeepsFour | opensiddur/importer/jps1917/template_finder.py:141-142 | as written a name found twice on each of two pages keeps four examples, over the limit of three |
| TemplateFinder.ScanStopsAtMissingPage | opensiddur/importer/jps1917/template_finder.py:127-129 | in the corrected loop, pages after a missing one are never scanned |
| TemplateFinder.InvokeErrors | opensiddur/importer/jps1917/template_finder.py:149-152 | the errors recorded when reading every page of a range raises: one message per page, in page order, naming the page and the `AttributeError` |
| TemplateFinder.FindAllAsWritten | opensiddur/importer/jps1917/template_finder.py:124-157 | as written, `get_page.invoke` raises on every page, so the summary has no counts, no details, no page processed, and one error per page of the range |
| TemplateFinder.AsWrittenProcessesNoPage | opensiddur/importer/jps1917/template_finder.py:126 | over two present pages the code as written records two errors, where the corrected scan processes both pages |
| TitlePage.ToDict | opensiddur/converters/1917jps/title_page.py:26-36 | the dictionary has exactly the seven fields |
| TitlePage.ToDictInjective | opensiddur/converters/1917jps/title_page.py:26-36 | the dictionary determines the title page information |
| TitlePage.Fold | opensiddur/converters/1917jps/title_page.py:64-84 | `re.IGNORECASE` compares characters folded one for one |
| TitlePage.LiteralAtMeans | opensiddur/converters/1917jps/title_page.py:64-84 | a literal matches at a position exactly when the text there folds to it |
| TitlePage.RunEnd | opensiddur/converters/1917jps/title_page.py:69 | a character-class run is maximal |
| TitlePage.FirstBlankLine | opensiddur/converters/1917jps/title_page.py:74 | the look-ahead `(?=\n\s*\n)` holds first at the position found, and nowhere when none is |
| TitlePage.FirstFourDigits | opensiddur/converters/1917jps/title_page.py:89 | the first four-digit run, if any |
| TitlePage.FirstLiteral | opensiddur/converters/1917jps/title_page.py:79-97 | the first alternative that matches, in the pattern's order |
| TitlePage.KindEnd | opensiddur/converters/1917jps/title_page.py:97 | `(Edition\|Printing\|Impression)` matches a non-empty span |
| TitlePage.OrdinalWordEnd | opensiddur/converters/1917jps/title_page.py:97 | an ordinal word matches a non-empty span |
| TitlePage.EditionEnd | opensiddur/converters/1917jps/title_page.py:97 | the edition pattern matches a non-empty span |
| TitlePage.LiteralEnd | opensiddur/converters/1917jps/title_page.py:64-84 | a literal pattern ends exactly its length further, and fails exactly when the literal is not there |
| TitlePage.HebrewEnd | opensiddur/converters/1917jps/title_page.py:69 | the Hebrew pattern matches exactly at a Hebrew character, up to the end of the run |
| TitlePage.SubtitleEnd | opensiddur/converters/1917jps/title_page.py:74 | the subtitle match covers at least its lead words |
| TitlePage.PublisherEnd | opensiddur/converters/1917jps/title_page.py:79 | the publisher match stays within the text |
| TitlePage.CopyrightEnd | opensiddur/converters/1917jps/title_page.py:103 | `copyright.*?\d{4}` covers at least thirteen characters |
| TitlePage.MatchAt | opensiddur/converters/1917jps/title_page.py:64-105 | every pattern's match ends within the text |
| TitlePage.SearchFrom | opensiddur/converters/1917jps/title_page.py:64-105 | `re.search` finds the leftmost match, and none when no position matches |
| TitlePage.Search | opensiddur/converters/1917jps/title_page.py:64-105 | the same from the start of the text |
| TitlePage.NoMatchKeepsDefaults | opensiddur/converters/1917jps/title_page.py:52-109 | text where no pattern matches gives the default information |
| TitlePage.ExtractTitlePageInfo | opensiddur/converters/1917jps/title_page.py:52-109 | `extract_title_page_info`: each field from its pattern over pages 7 and 8, or its default; TitlePage.NoMatchKeepsDefaults and the field lemmas (LiteralField, PublisherField, SubtitleField, HebrewField, YearField, AdditionalInfoKeys) state the fields |
| TitlePage.CaseInsensitiveMatch | opensiddur/converters/1917jps/title_page.py:66-86 | a match of a lower-case framed literal is its own stripped form |
| TitlePage.LiteralField | opensiddur/converters/1917jps/title_page.py:63-86 | the main title and place are the first case-insensitive occurrence, as written in the text, or the default |
| TitlePage.PublisherField | opensiddur/converters/1917jps/title_page.py:78-82 | the publisher is the first occurrence of either form, the long one when both start there, or the default |
| TitlePage.SubtitleField | opensiddur/converters/1917jps/title_page.py:73-76 | the subtitle runs from its lead words to the first blank line, stripped, or is the default |
| TitlePage.HebrewMatch | opensiddur/converters/1917jps/title_page.py:69-71 | a Hebrew run is its own stripped form |
| TitlePage.HebrewField | opensiddur/converters/1917jps/title_page.py:68-71 | the Hebrew title is the first Hebrew run, or the default in text without Hebrew |
| TitlePage.NineteenHundreds | opensiddur/converters/1917jps/title_page.py:89-91 | `19\d{2}` reads as a year from 1900 to 1999 |
| TitlePage.YearField | opensiddur/converters/1917jps/title_page.py:88-91 | the year is the first word-bounded `19xx`, or 1917 |
| TitlePage.HebrewLetterJoinsYear | opensiddur/converters/1917jps/title_page.py:89-91 | a Hebrew letter directly before `1923` is a word character, so `\b` fails there and the year stays 1917 |
| TitlePage.NotePresent | opensiddur/converters/1917jps/title_page.py:97-105 | a note is found exactly when its pattern matches somewhere |
| TitlePage.AdditionalInfoKeys | opensiddur/converters/1917jps/title_page.py:94-107 | the additional information holds at most `edition` and `copyright`, each exactly when its pattern matches, with its note |
| TitlePage.CopyrightMatch | opensiddur/converters/1917jps/title_page.py:103-105 | a copyright match starts with the word, ends in four digits and is its own stripped form |
| TitlePage.CopyrightField | opensiddur/converters/1917jps/title_page.py:103-105 | the copyright note always has that shape |
| TitlePage.IsPageFile | opensiddur/converters/1917jps/title_page.py:149 | the filter of `get_available_pages`: a `.txt` name whose stem is digits; TitlePage.AvailablePagesExact states the pages it admits |
| TitlePage.AvailablePagesExact | opensiddur/converters/1917jps/title_page.py:147-150 | the available pages are exactly the digit-stem `.txt` files, each once, ordered by number |
| TitlePage.AvailablePages | opensiddur/converters/1917jps/title_page.py:147-150 | `get_available_pages`; TitlePage.AvailablePagesExact states that it lists exactly the digit-stem `.txt` files, once each, by number |
| TitlePage.AvailablePageIndex | opensiddur/converters/1917jps/title_page.py:147-150 | every page file is listed |
| TitlePage.PageRangeIsMinMax | opensiddur/converters/1917jps/title_page.py:152-157 | the range is (0, 0) without pages, and otherwise the smallest and largest page numbers |
| TitlePage.PageRange | opensiddur/converters/1917jps/title_page.py:152-157 | `get_page_range`; TitlePage.PageRangeIsMinMax states that it is (0, 0) or the smallest and largest page numbers |
| TitlePage.NoDigitsTxt | opensiddur/converters/1917jps/title_page.py:130 | a name ending in `.txt` is never all digits |
| TitlePage.ProcessTitlePagesAsWrittenNone | opensiddur/converters/1917jps/title_page.py:130-134 | as written, `f.name.isdigit()` rejects every `.txt` file, so the title pages are never found |
| TitlePage.ProcessTitlePagesReadsFirstTwo | opensiddur/converters/1917jps/title_page.py:119-145 | with the stem checked instead, the two smallest page names by text order are read, and the result is None exactly when there are fewer than two or both are empty |
| TitlePage.ProcessTitlePages | opensiddur/converters/1917jps/title_page.py:119-145 | `process_title_pages` with the stem filter of the Findings row; TitlePage.ProcessTitlePagesReadsFirstTwo states which pages it reads and when it gives None |
| Transformer.DefaultTransformer | opensiddur/converters/util/transformer.py:16-79 | a fresh transformer has no transforms and leaves text unchanged |
| Transformer.Kept | opensiddur/converters/util/transformer.py:101-107 | the children kept are at most the children seen |
| Transformer.TransformNodeWalk | opensiddur/converters/util/transformer.py:24-52 | the recursive walk computes the node transform |
| Transformer.KeptWalk | opensiddur/converters/util/transformer.py:101-107 | the loop over children computes the kept children |
| Transformer.IdentityTransformWalk | opensiddur/converters/util/transformer.py:81-109 | the identity transform's walk computes it |
| Transformer.IdentityTransform | opensiddur/converters/util/transformer.py:81-109 | `_identity_transform`: a copy of the node with its children transformed; Transformer.IdentityTransformWalk states the copy |
| Transformer.AddTeiNamespaceWalk | opensiddur/converters/wlc/wlc.py:32-70 | the TEI-namespace transform's walk computes it |
| Transformer.AddTeiNamespaceTransform | opensiddur/converters/wlc/wlc.py:32-70 | `_add_tei_namespace`: the node in the TEI namespace with the extra attributes; Transformer.AddTeiNamespaceWalk states the tag, attributes, prefixes, text, tail and children |
| Transformer.TransformFile | opensiddur/converters/util/transformer.py:111-148 | the file transform reports success exactly when it yields a root, and an unparsable file fails |
| Transformer.QNameOfClark | opensiddur/converters/util/transformer.py:38-40 | a `{ns}local` tag splits into its namespace and local name |
| Transformer.QNameOfPlain | opensiddur/converters/util/transformer.py:41-44 | a tag without `}` has no namespace |
| Transformer.TransformNodeDispatch | opensiddur/converters/util/transformer.py:46-65 | a tag without a registered transform gets the identity transform, and a node is dropped exactly when its transform is the skip |
| Transformer.TransformNode | opensiddur/converters/util/transformer.py:46-65 | `transform_node`: the rule registered for the node's namespace and tag, else the identity; Transformer.TransformNodeDispatch states the dispatch |
| Transformer.AddTeiShape | opensiddur/converters/wlc/wlc.py:46-70 | the TEI transform gives the TEI-namespaced local or new name, the attributes with the extra ones over them, transformed text, the tail kept and `tei` in the namespace map |
| Transformer.CopyKids | opensiddur/converters/util/transformer.py:101-107 | one copy per child |
| Transformer.IdentityReproduces | opensiddur/converters/util/transformer.py:81-109 | with no transforms and unchanged text, transforming copies the tree |
| Transformer.KeptIsCopy | opensiddur/converters/util/transformer.py:101-107 | and then keeps every child, copied |
| Transformer.KeptCount | opensiddur/converters/util/transformer.py:101-107 | every child is either kept or dropped |
| Transformer.KeptTails | opensiddur/converters/util/transformer.py:101-107 | each kept child is some child's transform, with its tail transformed by the identity walk and kept as it was by the TEI walk |
| Wlc.IndexTransformer | opensiddur/converters/wlc/wlc.py:14-30 | the index transformer has the table of transforms and leaves text unchanged |
| Wlc.IndexRemoves | opensiddur/converters/wlc/wlc.py:18-26 | `coding`, `encodingDesc` and `notesStmt` are dropped |
| Wlc.SkippedNames | opensiddur/converters/wlc/wlc.py:18-26 | those names are registered with the skip |
| Wlc.IndexTableKeys | opensiddur/converters/wlc/wlc.py:17-30 | the table holds only un-namespaced names, each one of the listed tags |
| Wlc.IndexTanach | opensiddur/converters/wlc/wlc.py:72-74 | `Tanach` becomes `tei:TEI` |
| Wlc.IndexNotes | opensiddur/converters/wlc/wlc.py:76-78 | `tanach` becomes `tei:standOff` with `type="notes"` |
| Wlc.IndexBiblItem | opensiddur/converters/wlc/wlc.py:80-82 | `biblItem` becomes `tei:bibl` |
| Wlc.HeaderRule | opensiddur/converters/wlc/wlc.py:21-28 | the header elements are registered to take the TEI namespace under their own name |
| Wlc.IndexHeader | opensiddur/converters/wlc/wlc.py:21-28 | they are moved into the TEI namespace, keeping name and attributes |
| Wlc.IndexOthers | opensiddur/converters/wlc/wlc.py:17-30 | any other un-namespaced element is copied by the identity transform |
| Wlc.IndexIgnoresNamespaced | opensiddur/converters/util/transformer.py:38-47 | a namespaced element never matches the table |
| Wlc.BookJobs | opensiddur/converters/wlc/wlc.py:152-156 | each book job is a listed book, written under its lower-cased name with the book stylesheet |
| Wlc.XmlFiles | opensiddur/converters/wlc/wlc.py:158-159 | each file validated is a listed `.xml` file |
| Wlc.Run | opensiddur/converters/wlc/wlc.py:147-164 | the index job runs first, then the book jobs; every `.xml` file of the project is validated, the invalid ones reported, and the status is 0 |
| Wlc.BookJobsExact | opensiddur/converters/wlc/wlc.py:152-153 | a file gets a book job exactly when it is listed and is neither header, index nor a `.DH.xml` file |
| Wlc.DhBooksSkipped | opensiddur/converters/wlc/wlc.py:153 | no `.DH.xml` file is transformed |

## Left out

- XSLT stylesheets run by Saxon (`transform_book.xslt`, `transform_index.xslt`, `mediawiki_to_tei.xslt`, `xelatex.xslt`) are not part of this model. Where the code runs one, its output is a parameter, and so is the result of XML Schema validation.
- The Saxon, Jing and RelaxNG wrappers (the three `xslt.py` files, both `validation.py` files, `importer/agent/xml_linter.py`) are calls into foreign engines and are not part of this model. Their results are parameters where the core uses them.
- Both `prettify.py` files only serialise XML, so they are not modelled.
- The prompt and tool modules of the agents (`source_file.py`, both `project_header.py` files, `diff_fix.py`) wrap language-model calls and diff-match-patch, so they are not modelled.
- Network code (both `wikisource.py` files and `converters/wlc/download_tanach.py`) and the `xelatex` subprocess in `exporter/pdf/pdf.py` are not part of this model.
- Filesystem drivers are not modelled: both `1917jps.py` files, `importer/wlc/wlc.py`, `extract_licenses`, `extract_credits` and `transform_xml_to_tex`.
- Demo scripts (`checkpoint_example.py`, `example_usage.py`, `importer/jps1917/test_processor.py`), the API-key reader `converters/agent/common.py`, `importer/util/constants.py` and the stub `util.py` files of the agents are not modelled.
- Behaviour that only the repository's tests describe is not modelled, because the code does not have it. This covers xml:id rewriting, annotation and instruction merging, `group_credits`, `credits_to_tex`, `get_file_references`, a public `identity_transform`, and conditional evaluation. `LinearData.settings` is declared and never read.
- `convert_wikisource.process_mediawiki` and the XSLT it runs are a parameter of `mediawiki_xml_to_tei`. The model states only how that function selects front, body and standOff from the outputs.
- `convert_wikisource.book_file` and `index_file` write through `prettify_xml` and the file system. The model gives the text produced and the order of `FilesWritten`; pretty-printing and the writes themselves are left out. The recursion of `index_file` over its children is modelled only as that order.
- `find_page_range` in `convert_wikisource.py` is filesystem orchestration and is not modelled.
- `book_file` passes `is_section` and its other keyword arguments to the XSLT as parameters. The XSLT is a parameter of the model, so what it does with them is not modelled.
- The `urllib.parse.quote` call in `header` is a function parameter of the model.
- opensiddur/converters/agent/tools.py is not part of this model. The credit tool is modelled from opensiddur/importer/agent/tools.py, which has the same rules.
- In `text_encoding_agent.py`, the language-model answers, the linter result and the diff-match-patch result are parameters (the `Outcome` values in `Answers`). A raised exception is an `Outcome.Raised` with its message.
- The compiled LangGraph run (`agent.invoke`) is not modelled as a whole: the model gives one `Step` (a node followed by its edge), and the lemmas are about single steps. `create_session_id` (md5 of the clock), the checkpoint files and the `MemorySaver` store are left out.
- `print` calls and log messages are left out everywhere, except where the text is returned or stored (error strings and warnings).
- In the MediaWiki processor, the mwparserfromhell parse is a parameter: the model takes the parsed nodes. Parsing a node's own wikitext (`str(node)`) again is assumed to give that node back. A wikilink's namespace, section and fragment exist only when the parser supplies them.
- The processor's `metadata` is always `{}` in the code, so it is omitted from the model.
- `_cleanup_empty_elements` is never called by the code, so it is not modelled.
- Parser nodes the processor passes through unchanged are one `Text` node of their wikitext. These are text, comments, HTML entities, headings, external links and `{{{...}}}` argument nodes.
- TitlePage.YearField: Python's `\d` also matches the decimal digits of other scripts, and `\w` the letters of every script. The model counts only ASCII digits as digits, and only ASCII letters, digits and `_`, the Latin-1 letters and the Hebrew letters as word characters. A year written in, say, Arabic-Indic digits, or one joined to a Greek or Cyrillic letter, is read differently from the code.
- TitlePage.FirstFourDigits: the same restriction of `\d` to ASCII digits applies to `copyright.*?\d{4}`.
- MediaWikiHandlers.ApplyTemplate: the built-in `verse` handler uses the corrected text lookup, `MediaWikiHandlers.VerseOf` (see Findings). For `{{verse|chapter=c|verse=v|text=t}}` the model gives the text `t`, where the code as written gives `text=t`; `MediaWikiHandlers.VerseNamedAsWritten` states the code's result. Every other template is handled as written.
- MediaWikiProcessor.Processor.ProcessWikitext: inherits the corrected `verse` lookup from `ApplyTemplate`.
- MediaWikiProcessor.ProcessPage: inherits the corrected `verse` lookup from `ApplyTemplate`.
- MediaWikiProcessor.Convert: inherits the corrected `verse` lookup from `ApplyTemplate` through `ProcessWikitext`. For `{{verse|chapter=c|verse=v|text=t}}` the document holds the text `t`, where the code as written gives `text=t`, as MediaWikiHandlers.VerseNamedAsWritten states.
- Pages.GetPage: `int()` of a string is modelled with ASCII digits only, while Python also accepts the decimal digits of other scripts (`int("٧") == 7`). The `ValueError` message quotes the string between plain `'` marks, where Python uses `repr()`, which differs for strings holding quotes, backslashes or unprintable characters.
- Pages.GetCredits: the same restriction of `int()` to ASCII digits and the same quoting of the error message apply.
- AgentTools.GetPage: the same restriction of `int()` to ASCII digits and the same quoting of the error message apply.
- AgentTools.GetCredits: the same restriction of `int()` to ASCII digits and the same quoting of the error message apply.
- TitlePage.IsPageFile: `str.isdigit()` is modelled for ASCII digits only. Python's also accepts other digit characters, so for the code a stem such as `٣` is a page file with number 3, and a stem such as `²` passes the filter and then makes the sort key `int(x.stem)` raise. The model admits neither.
- `lower()` and `upper()` are modelled for ASCII letters only. Python's full Unicode case mapping is left out.
- Custom handlers registered through `add_template_handler` and `add_tag_handler` are functions of the template or tag call alone, returning text or an exception message. They cannot read or change the processor's state.
- Python's `copy()` and `deepcopy()` are modelled by value. Aliasing between a returned list and the processor's list is therefore left out.
- `MediaWikiPreprocess.ConvertParagraphBreaksMeans`: the equivalence with the one-pass definition is proved only for text without `_`. The code's placeholder for `{{nop}}` is built from `_`, so text that already holds `_` is outside that lemma. `MediaWikiPreprocess.ParagraphsAgree` relates the steps for any text.
- In `template_finder.py`, each extractor's `except` branch is modelled as giving `{}`. The page loops of `find_all_tags` and `find_all_templates` call `get_page.invoke` on the plain function `get_page` (see Findings). `TemplateFinder.FindAllAsWritten` models that code, and `FindAllTemplates` and `FindAllTags` model the loops as intended, with `get_page` called directly. In the corrected loops only a file-system error could reach the page `except`, so their `errors` list is empty.
- TemplateFinder.ScanPagesMeans: states the page loop with the plain `get_page` called directly, not the `get_page.invoke` the code calls; as written every page raises, as TemplateFinder.FindAllAsWritten states (see Findings).
- TemplateFinder.ScanTemplates: states the page loop with the plain `get_page` called directly, not the `get_page.invoke` the code calls; as written every page raises, as TemplateFinder.FindAllAsWritten states (see Findings).
- TemplateFinder.ScanTags: states the page loop with the plain `get_page` called directly, not the `get_page.invoke` the code calls; as written every page raises, as TemplateFinder.FindAllAsWritten states (see Findings).
- TemplateFinder.FindAllTemplates: states the page loop with the plain `get_page` called directly, not the `get_page.invoke` the code calls; as written every page raises, as TemplateFinder.FindAllAsWritten states (see Findings).
- TemplateFinder.FindAllTags: states the page loop with the plain `get_page` called directly, not the `get_page.invoke` the code calls; as written every page raises, as TemplateFinder.FindAllAsWritten states (see Findings).
- TemplateFinder.ScanStopsAtMissingPage: states the page loop with the plain `get_page` called directly, not the `get_page.invoke` the code calls; as written every page raises, as TemplateFinder.FindAllAsWritten states (see Findings).
- TemplateFinder.ScanTemplates: also merges each page through `TemplateFinder.Bump`, which keeps at most three examples per name (the corrected half of the Findings row for template_finder.py:141-142). As written, a name used twice on each of two pages keeps four examples, as TemplateFinder.AsWrittenKeepsFour states.
- TemplateFinder.ScanTags: also merges each page through `TemplateFinder.Bump`, which keeps at most three examples per name (the corrected half of the Findings row for template_finder.py:141-142). As written, a name used twice on each of two pages keeps four examples, as TemplateFinder.AsWrittenKeepsFour states.
- TemplateFinder.FindAllTemplates: also merges each page through `TemplateFinder.Bump`, which keeps at most three examples per name (the corrected half of the Findings row for template_finder.py:141-142). As written, a name used twice on each of two pages keeps four examples, as TemplateFinder.AsWrittenKeepsFour states.
- TemplateFinder.FindAllTags: also merges each page through `TemplateFinder.Bump`, which keeps at most three examples per name (the corrected half of the Findings row for template_finder.py:141-142). As written, a name used twice on each of two pages keeps four examples, as TemplateFinder.AsWrittenKeepsFour states.
- Compiler nesting: an inline transclusion recurses into a nested processor, and Python stops that with `RecursionError`. The model counts the depth with a `fuel` parameter and gives `RecursionError` when the fuel runs out. The depth at which Python would actually stop is not modelled.
- Compiler.Transclude: uses the corrected `Compiler.IsTransclude`, `Compiler.ProcessingElement` and `Compiler.ExternalFrame` (the Findings rows for compiler.py:80, 85 and 367-373). As written, a transclusion in the JLPTEI namespace is not recognised and is copied unchanged, and a plain `transclude` tag raises `AttributeError`; CompilerProps.IsTranscludeAsWrittenMisses and Compiler.IsTranscludeAsWritten state this.
- Compiler.BaseProcess: walks with the corrected `Compiler.Transclude`. As written no namespaced transclusion is recognised, so `process()` gives a copy of the file with its transclusions left in place.
- Compiler.ExternalProcess: pushes the intended `Compiler.ExternalFrame`, not the code's `Compiler.ExternalFrameAsWritten`. As written a range with an end starts after that end, so every element is skipped and the result is empty, as Compiler.ExternalProcessAsWritten states.
- `CompilerWalk` methods: when the walk ends in an error, the methods state only the error. They state nothing about the `processing_context` stack, which Python leaves with the frames pushed before the exception.
- `RefDb` stores SQLite rows in sequences in insertion order. Timestamps are integers given by the caller instead of the clock, and `pathlib` directory scans are parameters.
- `RefDb` set iteration: `sync_project`, `sync_projects` and `index_project` loop over Python sets, whose order is not specified. Their methods return that order as a ghost sequence that visits every element once, and state the new tables and counts as a fold over it. For `sync_projects` the fold is a chain of table states, one `sync_project` per project, and the order in which each project's files are visited is returned as a ghost map.
- RefDb.ReferenceDatabase.SyncProject: takes the orphaned files from both tables (`RefDb.StoredFiles`, the corrected set of the Findings row for refdb.py:508-511). As written only the URN table is asked, so a file with only reference rows that is gone from disk keeps its rows, as RefDb.ReferenceOnlyFileIsNotOrphaned states.
- RefDb.ProjectSynced: describes `sync_project` with the same corrected set of orphaned files, `RefDb.StoredFiles`.
- RefDb.OrphansRemovedLeaveDisk: is stated for the same corrected set, `RefDb.StoredFiles`. With the code's set, a reference-only file gone from disk still has rows.
- RefDb.ReferenceDatabase.SyncProjects: takes the orphaned projects from both tables (`RefDb.StoredProjects`, the corrected set of the Findings row for refdb.py:559-562), and each project is synced with the corrected `sync_project`. As written a project with only reference rows that is gone from disk keeps its rows, as RefDb.ReferenceOnlyProjectIsNotOrphaned states.
- The model's `ResolvedUrn` has no `element_path`. The `urn_mappings` table stores none, so no stored row can supply one (see Findings).
- The SQLite connection, its transactions and any concurrent access are left out.
- The lxml parser is a parameter: a file's text either parses to an `Xml.Element` or gives a parse error.

## Findings

| source | as written | input that shows it | evidently intended | confidence | as-written member | corrected member |
|---|---|---|---|---|---|---|
| opensiddur/exporter/compiler.py:80 | `element.tag == 'transclude' and element.namespace == JLPTEI_NAMESPACE` | a JLPTEI `<j:transclude target="urn:x-opensiddur:a"/>`, whose lxml tag is `{http://jewishliturgy.org/ns/jlptei/2}transclude`: the test is false and the element is copied instead of transcluded | recognise `transclude` in the JLPTEI namespace by its Clark-notation tag | not executed | CompilerProps.IsTranscludeAsWrittenMisses | CompilerProps.TranscludeShape |
| opensiddur/exporter/compiler.py:85 | `etree.Element('p:transclude', nsmap=self.ns_map)` | any transclusion that is recognised: lxml raises `ValueError: Invalid tag name 'p:transclude'` | create `transclude` in the namespace bound to `p` | not executed | Compiler.ProcessingElementAsWritten | Compiler.ProcessingElement |
| opensiddur/exporter/compiler.py:367-373 | the external `process()` pushes a frame with `after_end=self.to_end is not None` | any external transclusion with an end: the walk starts after the end, so every element is skipped and the result is empty | the frame starts before the start and not after the end | not executed | Compiler.ExternalProcessAsWritten | CompilerWalk.ExternalProcessWalk |
| opensiddur/exporter/urn.py:54 | `ResolvedUrn(..., element_path=row.element_path)` built from a `UrnMapping` | `resolve("urn:x-opensiddur:a")` with one stored mapping raises `AttributeError` | build the `ResolvedUrn` from the project, file and URN a mapping has; the model's `ResolvedUrn` drops `element_path` | not executed | Urn.ResolveAsWrittenRaises | Urn.Resolve |
| opensiddur/exporter/urn.py:191 | `element_path=mapping.element_path` | `get_urns_by_project("p")` with one stored mapping of project `p` raises `AttributeError` | as in `resolve` | not executed | Urn.GetUrnsByProjectAsWritten | Urn.GetUrnsByProject |
| opensiddur/exporter/refdb.py:508-511 | the database's files are taken from `get_files_by_project`, which reads only the URN table | a file that is gone from disk but holds only references is never removed by `sync_project` | files known to either table | not executed | RefDb.ReferenceOnlyFileIsNotOrphaned | RefDb.ReferenceDatabase.SyncProject |
| opensiddur/exporter/refdb.py:559-562 | the database's projects come from `list_projects`, which reads only the URN table | a project directory with only reference rows that is deleted from disk is never removed by `sync_projects` | projects known to either table | not executed | RefDb.ReferenceOnlyProjectIsNotOrphaned | RefDb.StoredProjects |
| opensiddur/converters/1917jps/prepare.py:84 | `map_filename` raises for an unmapped name, although its docstring promises None | `prepare` on a directory holding `README.xml`: the loop raises there, and the skip branch at lines 145-147 is never reached | return None, so that `prepare` skips the file | not executed | Prepare.AsWrittenStopsAtUnmapped | Prepare.PreparePlanJobs |
| opensiddur/converters/1917jps/title_page.py:130 | `f.name.isdigit()` on the whole file name | a directory with `0007.txt` and `0008.txt`: no name is all digits, so `process_title_pages` returns None | test the stem, `f.stem.isdigit()` | not executed | TitlePage.ProcessTitlePagesAsWrittenNone | TitlePage.ProcessTitlePagesReadsFirstTwo |
| opensiddur/importer/jps1917/template_finder.py:141-142 | the limit of three examples is checked before `extend`, which may add two | a template used twice on each of two pages keeps four examples | keep at most three examples | not executed | TemplateFinder.AsWrittenKeepsFour | TemplateFinder.AggregateKeepsThreeExamples |
| opensiddur/importer/jps1917/mediawiki_processor.py:298 | `str(template.get(3, template.get('text', '')))` renders the named parameter whole | `{{verse\|chapter=1\|verse=2\|text=In}}` gives the text `text=In` | the parameter's value `In`, as `chapter=` and `verse=` are stripped on lines 296-297 | not executed | MediaWikiHandlers.VerseNamedAsWritten | MediaWikiHandlers.VerseNamed |
| opensiddur/importer/jps1917/template_finder.py:126 | `get_page.invoke({"page_number": page_num})` on `get_page`, imported at line 14 as a plain function from `importer/util/pages.py` | `find_all_templates(start_page=1, end_page=2)` with both page files present: each page raises `AttributeError`, the `except` records it, and no page is processed | call the plain `get_page` for the page | not executed | TemplateFinder.FindAllAsWritten | TemplateFinder.FindAllTemplates |
| opensiddur/importer/jps1917/template_finder.py:51 | `get_page.invoke({"page_number": page_num})`, as on line 126 | `find_all_tags(start_page=1, end_page=2)` with both page files present: two errors and no page processed | call the plain `get_page` for the page | not executed | TemplateFinder.AsWrittenProcessesNoPage | TemplateFinder.FindAllTags |
