# 4CAT snapshot worker, Breitbart enrichment and lexicon filter in Dafny

This project models three pieces of decision logic from the 4CAT capture and
analysis toolkit and proves properties about them.

- **The daily-snapshot worker** (`SnapshotAnalyser.work`). The model works on an
  abstract store of datasets, jobs and a key allocator. If the target search
  dataset is missing, the job is finished. If the target is still running, the
  job is released with a delay of 5. Otherwise three analyses are spawned under
  the target, each a child dataset with its own queued job: top neologisms, top
  bigrams and top countries. Each analysis copies its result to a file named
  after the snapshot's date, data source and board.
- **Breitbart thread-metadata enrichment** (`SearchBreitbart.after_search`). It
  collects the thread ids of the article rows. It gives each qualifying row its
  thread's `url`, `section` and `tags`, and pads every other row with empty
  values. The result of the metadata database query is an input map.
- **The lexicon filter** (`LexicalFilter.process` and `after_process`). It
  assembles the lexicons from the selected word lists and a comma-separated
  custom list, and compiles a matcher per non-empty lexicon. It keeps the posts
  with a non-empty body that some lexicon matches, recording which lexicons
  matched, and counts what it reads and writes. Afterwards it turns the result
  into a standalone `search` dataset. The word lists on disk are an input map
  from lexicon id to its set of lines. The regular-expression engine is a
  parameter `matches(matcher, body)`.

Files:

- `wrappers.dfy`: `Option` and `Result`.
- `text.dfy`: Python's `str.strip`, `str.split`, `str.join` and `"%i"`, written
  out over `seq<char>`.
- `datasets.dfy`: the dataset/job store. It covers `DataSet(key=...)` lookup,
  `DataSet(parameters, type, parent)` creation and `queue.add_job`, and defines
  the store invariant `Valid`.
- `analyse_snapshot.dfy`, `search_breitbart.dfy` and `lexical_filter.dfy`: each
  holds a model module and a `...Properties` module of lemmas.

The help text of the `as_regex` option says it makes the custom lexicon be read
as regular expressions. The code does the opposite: with `as_regex` set it passes
every term through `re.escape`, so the terms match literally
(processors/filtering/lexical_filter.py:50-53 against 92-95). The model follows
the code: a matcher's `escaped` flag equals `as_regex`.

## Model

| member | source | states |
|---|---|---|
| SnapshotAnalyser.FormatInt | backend/workers/analyse_snapshot.py:31 | `%i` succeeds exactly for integers and booleans and raises for strings, `None`, lists and dictionaries; it renders an integer as its decimal form |
| SnapshotAnalyser.FormatStr | backend/workers/analyse_snapshot.py:31 | `%s` succeeds exactly for scalar values; it renders a string as itself and `None` as `None` |
| SnapshotAnalyser.FilePrefix | backend/workers/analyse_snapshot.py:31 | the prefix exists iff `max_date`, `datasource` and `board` are all present and each formats, and then it is `"/" + date + "-" + datasource + "-" + board` |
| Datasets.Lookup | backend/workers/analyse_snapshot.py:20-23 | `DataSet(key=k)` finds a record iff the key is in the table, and then it is that key's record; otherwise the constructor raises |
| Datasets.AddJob | backend/workers/analyse_snapshot.py:52 | queueing a job appends exactly that job after the existing queue and touches neither the dataset table nor the allocator |
| SnapshotAnalyser.Work | backend/workers/analyse_snapshot.py:16-83 | the worker's three branches; what each one promises is stated by WorkMissingTarget, WorkUnfinishedTarget, WorkOutcome, WorkSpawnsAnalyses, WorkChildren and WorkPreservesValid |
| SnapshotAnalyser.Analyses | backend/workers/analyse_snapshot.py:32-80 | the three analyses in creation order; their types and parameter trees are stated by WorkSpawnsAnalyses, NeologismsChain, BigramsChain, CountriesChain and CopyTargetsSharePrefix |
| SnapshotAnalyser.Spawn | backend/workers/analyse_snapshot.py:32-80 | creating each analysis's dataset and then queueing its job; its effect is stated by SpawnQueue, SpawnDatasets, SpawnPairing, SpawnDistinct, SpawnCarries, SpawnCount and SpawnKeepsValid |
| Datasets.Create | backend/workers/analyse_snapshot.py:32-51 | on a valid store the new dataset gets a key not yet in use; it is unfinished and has the given type, parameters and parent; no other record changes |
| Datasets.CreateKeepsValid | backend/workers/analyse_snapshot.py:32-51 | creating under an existing parent keeps the store invariant (parents exist and are older, jobs refer to existing datasets) |
| Datasets.AddJobKeepsValid | backend/workers/analyse_snapshot.py:52 | queueing a job for an existing dataset keeps the store invariant |
| SnapshotAnalyserProperties.WorkMissingTarget | backend/workers/analyse_snapshot.py:19-23 | a missing target finishes the job and leaves the store unchanged |
| SnapshotAnalyserProperties.WorkUnfinishedTarget | backend/workers/analyse_snapshot.py:25-28 | an unfinished target releases the job with delay exactly 5 and leaves the store unchanged |
| SnapshotAnalyserProperties.WorkOutcome | backend/workers/analyse_snapshot.py:16-83 | every run ends in exactly one of finish, release or a formatting exception. It crashes iff the target is finished and the prefix fails to format. It is released iff the target exists unfinished, with delay 5. The store changes only on the finish path of a finished target |
| SnapshotAnalyserProperties.SpawnQueue | backend/workers/analyse_snapshot.py:32-80 | spawning appends one job per analysis after the existing queue, in creation order. Each job has its analysis's type and the next fresh key. The allocator advances by the number of analyses |
| SnapshotAnalyserProperties.SpawnDatasets | backend/workers/analyse_snapshot.py:32-80 | spawning adds exactly one unfinished dataset per analysis, under consecutive fresh keys, each with its analysis's type and parameters and parented on the target; older datasets are unchanged |
| SnapshotAnalyserProperties.SpawnPairing | backend/workers/analyse_snapshot.py:51-52 | on a valid store each new job refers to a dataset that did not exist before, is unfinished, has the job's type and has the target as parent; no existing dataset changes |
| SnapshotAnalyserProperties.SpawnDistinct | backend/workers/analyse_snapshot.py:32-80 | the new jobs refer to pairwise distinct datasets |
| SnapshotAnalyserProperties.SpawnCarries | backend/workers/analyse_snapshot.py:32-80 | the i-th new job has the i-th analysis's type, and its dataset carries the i-th analysis's parameters |
| SnapshotAnalyserProperties.SpawnKeepsValid | backend/workers/analyse_snapshot.py:32-80 | spawning under an existing parent keeps the store invariant |
| SnapshotAnalyserProperties.WorkSpawnsAnalyses | backend/workers/analyse_snapshot.py:32-80 | a finished snapshot queues exactly three jobs. In order, they have the types of the neologisms, bigrams and countries analyses (tokenise-posts, tokenise-posts, attribute-frequencies), and their datasets carry those analyses' parameters |
| SnapshotAnalyserProperties.WorkChildren | backend/workers/analyse_snapshot.py:32-80 | a finished snapshot adds exactly three datasets. Each new job refers to a dataset that did not exist before, has the job's type, is unfinished and is parented on the target; no existing dataset changes |
| SnapshotAnalyserProperties.SpawnCount | backend/workers/analyse_snapshot.py:32-80 | when all keys lie below the allocator, spawning grows the dataset table by exactly one record per analysis |
| SnapshotAnalyserProperties.NeologismsChain | backend/workers/analyse_snapshot.py:32-51 | the first analysis chains vectorise-tokens then vector-ranker, and its only copy target is `<snapshot path><prefix>-neologisms.csv` |
| SnapshotAnalyserProperties.BigramsChain | backend/workers/analyse_snapshot.py:55-70 | the second analysis chains collocations alone, and its only copy target is `<snapshot path><prefix>-bigrams.csv` |
| SnapshotAnalyserProperties.CountriesChain | backend/workers/analyse_snapshot.py:74-79 | the third analysis has no `next`, and its only copy target is `<snapshot path><prefix>-countries.csv` |
| SnapshotAnalyserProperties.CopyTargetsSharePrefix | backend/workers/analyse_snapshot.py:31-78 | every copy target of the three analyses begins with the snapshot path followed by the same file prefix |
| SnapshotAnalyserProperties.WorkPreservesValid | backend/workers/analyse_snapshot.py:16-83 | every run keeps the store invariant |
| BreitbartSearch.CollectThreadIds | datasources/breitbart/search_breitbart.py:36-39 | the thread-id loop; when it raises is stated by CollectThreadIdsTotal and what it collects by CollectThreadIdsSpec, against the independent ArticleThreadIds |
| BreitbartSearch.Enrich | datasources/breitbart/search_breitbart.py:47-54 | the enrichment loop, row by row; stated by EnrichSpec |
| BreitbartSearch.AfterSearch | datasources/breitbart/search_breitbart.py:23-56 | `after_search` as a whole; when it returns normally is stated by AfterSearchTotal and what it returns by AfterSearchSpec |
| BreitbartSearch.EnrichPost | datasources/breitbart/search_breitbart.py:48-52 | enriching a row succeeds iff the row has `subject`, a row with a non-empty subject has `thread_id`, and a qualifying row's thread has metadata |
| BreitbartSearch.EnrichPostMerges | datasources/breitbart/search_breitbart.py:49-52 | a row that goes through comes out as the input row plus `url`/`section`/`tags`: the thread's metadata (overriding old values) for a qualifying row, empty strings otherwise; every other column is unchanged |
| BreitbartSearch.EnrichSpec | datasources/breitbart/search_breitbart.py:47-54 | the enrichment loop succeeds iff every row does; it then keeps length and order, and each output row is its input row enriched |
| BreitbartSearch.RunAfterSearch | datasources/breitbart/search_breitbart.py:23-56 | the pop-from-the-front loop computes the same result as the row-wise definition. What is left of the caller's list: all of it when the thread-id loop raises, nothing on success, and the rows after the first raising row when the enrichment raises (that row has already been popped) |
| BreitbartSearchProperties.CollectThreadIdsTotal | datasources/breitbart/search_breitbart.py:36-39 | the thread-id loop completes iff every row has `thread_id` and `id`, and every row whose two are equal has `subject` |
| BreitbartSearchProperties.CollectThreadIdsSpec | datasources/breitbart/search_breitbart.py:36-39 | `thread_ids` is exactly the set of thread ids of rows with `thread_id == id` and a non-empty subject |
| BreitbartSearchProperties.AfterSearchTotal | datasources/breitbart/search_breitbart.py:36-54 | `after_search` returns normally iff every row has `thread_id`, `id` and `subject` and every article thread id has metadata |
| BreitbartSearchProperties.AfterSearchSpec | datasources/breitbart/search_breitbart.py:34-56 | on success the output has the input's length and order; each row gains `url`/`section`/`tags` (metadata for articles' rows, empty otherwise) with all other columns unchanged |
| Text.StripIdempotent | processors/filtering/lexical_filter.py:83 | stripping a stripped string changes nothing |
| Text.StripEmpty | processors/filtering/lexical_filter.py:83 | a string strips to empty iff it is all whitespace |
| Text.SplitJoin | processors/filtering/lexical_filter.py:83 | splitting a join of comma-free pieces on the comma returns the pieces |
| Text.JoinSplit | processors/filtering/lexical_filter.py:83 | joining the pieces of a split with the separator gives back the string |
| Text.IntToStringRoundTrip | backend/workers/analyse_snapshot.py:31 | the decimal rendering used by `%i` parses back to the integer |
| LexicalFilter.CustomTerms | processors/filtering/lexical_filter.py:82-83 | every custom term is non-empty, has no comma and no surrounding whitespace |
| LexicalFilterProperties.CustomTermsOfJoin | processors/filtering/lexical_filter.py:82-83 | parsing a comma-joined list of clean terms gives back exactly the set of those terms |
| LexicalFilterProperties.CustomTermsBlank | processors/filtering/lexical_filter.py:82-83 | a custom lexicon of only commas and whitespace yields no terms |
| LexicalFilter.LoadWordlists | processors/filtering/lexical_filter.py:66-75 | (corrected) the loaded lexicons are exactly the selected ids that exist on disk, each with its word list |
| LexicalFilter.LoadWordlistsAsWritten | processors/filtering/lexical_filter.py:66-75 | (as written) loading raises iff some selected word list exists, and otherwise yields no lexicons |
| LexicalFilterProperties.WordlistKeyErrorDiverges | processors/filtering/lexical_filter.py:75 | whenever a selected word list exists, the code as written raises while the corrected loading holds that list's terms |
| LexicalFilterProperties.WordlistKeyErrorExample | processors/filtering/lexical_filter.py:75 | selecting one existing list raises `KeyError` as written and loads the list when corrected |
| LexicalFilter.AssembleLexicons | processors/filtering/lexical_filter.py:64-84 | (corrected, see ## Findings: as written these lines raise `KeyError` whenever a selected word list exists) "user-defined" is always present. The other ids are exactly the existing selected lists, with their terms. "user-defined" holds its word list, if selected and existing, plus the custom terms |
| LexicalFilter.BuildMatchers | processors/filtering/lexical_filter.py:86-99 | a lexicon gets a matcher iff its term set is non-empty; the matcher holds exactly its non-empty terms and is escaped iff `as_regex` |
| LexicalFilterProperties.MatchingIff | processors/filtering/lexical_filter.py:86-139 | a lexicon is recorded for a body iff it has a term and its compiled non-empty terms match the body |
| LexicalFilter.MatchingLexicons | processors/filtering/lexical_filter.py:128-139 | the recorded ids are exactly the lexicons that have a matcher and whose matcher matches the body |
| LexicalFilter.Decide | processors/filtering/lexical_filter.py:118-148 | the keep/drop rule for one post; stated by KeptIff |
| LexicalFilter.FilterPosts | processors/filtering/lexical_filter.py:118-150 | the rows written, in order; stated by KeptIff, FilterAppend and RunFilter |
| LexicalFilter.CountBodies | processors/filtering/lexical_filter.py:118-142 | the `processed` counter; its bounds are stated by FilterCounts and its relation to the loop by RunFilter |
| LexicalFilter.FilterCounts | processors/filtering/lexical_filter.py:105-150 | rows written ≤ posts with a body ≤ posts read |
| LexicalFilter.RunFilter | processors/filtering/lexical_filter.py:118-151 | the loop writes exactly the filtered rows; `processed` counts the posts with a body; `matching_items` is the number of rows written; `matching_items ≤ processed ≤ posts` |
| LexicalFilter.Process | processors/filtering/lexical_filter.py:58-151 | (corrected, see ## Findings: as written these lines raise `KeyError` whenever a selected word list exists) the output header is the input header plus `matching_lexicons`; the rows are the posts filtered by the assembled matchers; the count passed to `finish` equals the rows written |
| LexicalFilterProperties.FilterAppend | processors/filtering/lexical_filter.py:118-150 | filtering distributes over concatenation, so rows come out in input order |
| LexicalFilterProperties.KeptIff | processors/filtering/lexical_filter.py:118-150 | a row is written iff its post has a non-empty body and some lexicon matches; its recorded lexicons are exactly the ones that match |
| LexicalFilter.AfterProcess | processors/filtering/lexical_filter.py:153-175 | the standalone copy; stated by AfterProcessSpec and AfterProcessKeepsValid |
| LexicalFilterProperties.AfterProcessSpec | processors/filtering/lexical_filter.py:153-175 | the copy gets a fresh key. It is a root of type `search` without `key_parent`, with `body_match = "(Filtered) " + query`, `datasource` defaulting to "custom" and `board` falling back to "lexical-filter"; every other field is the filter dataset's own. The filter dataset's `copied_to` is the copy's key, and nothing else changes |
| LexicalFilterProperties.AfterProcessKeepsValid | processors/filtering/lexical_filter.py:153-175 | making the standalone copy keeps the store invariant |

## Left out

- File I/O: reading and writing the CSV files, `csv.field_size_limit`, opening the word-list files, and deleting the result file (`os.unlink`). The word lists and the source rows are inputs.
- The regular-expression engine (`re.compile`, `re.escape`, `\b`, IGNORECASE) is a parameter `matches`. Only the set of alternatives and whether they were escaped are recorded.
- The Breitbart metadata SQL query is an input map. That includes how the database treats an empty `IN ()` tuple when no thread ids were collected.
- Progress messages (`update_status`) have no effect on results.
- The `max_workers = 1` ceiling: scheduling and concurrency.
- The internals of `DataSet`, the job queue, `BasicWorker`/`BasicProcessor` and `Search4Chan` are not part of this model. Keys come from an allocator in the store. `copy`, `detach`, `delete_parameter` and attribute setting are modelled by their effect on the dataset record. `board`, `datasource` and `body_match` are modelled as parameters.
- `super().after_process()` in the lexicon filter is not part of this model.
- datasources/tiktok/__init__.py holds only constants and is not part of this model.
- `PATH_SNAPSHOTDATA` is an opaque configuration string. `PATH_ROOT` only locates the word lists, which are an input.
- SnapshotAnalyser.FormatInt: floating-point parameter values are not modelled. Python's `%i` truncates a float (and `%s` renders it with `repr`); a `max_date` stored as a float is outside the model.
- SnapshotAnalyser.FormatStr: `%s` of a list or a dictionary (Python's `repr`) is reported as a failure instead of being rendered.
- LexicalFilter.Body: a `body` value of `None` and a missing `body` are both read as the empty string, since only the value's truthiness matters.
- LexicalFilter.Process: the output column `matching_lexicons` is the set of matching ids. Python joins a set in an unspecified order, so the comma-joined string is not modelled.
- LexicalFilter.Process: the `DictWriter` check that rows carry no column outside the header is not modelled.
- LexicalFilterProperties.AfterProcessSpec: `DataSet.copy` is modelled as a plain duplicate of the record under a fresh key. Any parameters `copy()` adds by itself are not modelled, so "every other field is the filter dataset's own" holds of that duplicate.
- BreitbartSearch.EnrichPost: row values are strings, so truthiness is non-emptiness. Other Python value types are not modelled.

## Findings

| source | as written | input that shows it | evidently intended | confidence | as-written member | corrected member |
|---|---|---|---|---|---|---|
| processors/filtering/lexical_filter.py:75 | The terms are merged into `lexicons[lexicon_file]`, keyed by the word list's `Path`. That key never exists, so the lookup raises `KeyError` for every selected word list that exists on disk | `lexicon = ["hatebase-en-unambiguous"]` with that word list present | merge into `lexicons[lexicon_id]`, the entry created two lines above | not executed | LexicalFilter.LoadWordlistsAsWritten (shown by LexicalFilterProperties.WordlistKeyErrorDiverges and LexicalFilterProperties.WordlistKeyErrorExample) | LexicalFilter.LoadWordlists |
