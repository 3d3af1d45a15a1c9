# OptiSign help-center sync: a Dafny model

This project models the daily job that copies the OptiSign help center
(a Zendesk site) into an OpenAI vector store. The job has three parts, and
each has its own Dafny module:

- **Crawler** (`HomeTest/scripts/data-crawl.py`). Modules `Text` and `Crawl`.
  - It walks the help-center article pages newest-first and skips drafts.
  - It stops at the first non-draft article updated at or before a 24-hour
    cutoff (`updated_at <= cutoff`). Once 40 articles have been saved, it
    stops at the next non-draft article. On a first run the cutoff does not
    apply.
  - It normalises each article's markdown and hashes it.
  - It classifies each article against the metadata stored in MongoDB, using
    `get_category`:
    - "new" on a first run or for an unknown id;
    - skipped when the stored hash equals the new one;
    - "updated" otherwise.
  - It saves the record of every article it saved, keeping the article's old
    `openai_file_id`, and writes all metadata back at the end (line 211), one
    upsert per record.
  - `Text` holds `slugify` and the whitespace normalisation. Both are "replace
    each maximal run of a character class by one character, then strip".
- **Uploader** (`HomeTest/scripts/upload_to_vector_store.py`). Module
  `Upload`.
  - It finds the vector store by name, or creates it.
  - It walks the "updated" files and then the "new" files.
  - It matches each file to its article by slug in `metadata.json`.
  - For an updated article, it deletes the old file from the provider and from
    the store, then uploads the new file and adds it to the store.
  - It records the new file id.
  - The lookup scans the entries in order and stops at the first match. If
    it reaches an entry without a slug before any match, it raises a
    `TypeError`; an entry without a slug after the match is never looked at.
    The error ends the whole upload before the metadata is saved.
  - The provider is an `IndexStore` object. Its ghost call log records every
    file request (delete, detach, upload, add) with its outcome, and the
    remote state is computed from that log. The vector-store listing and
    create requests are not logged: their answers are the `listing` and
    `created` inputs of `Upload.ResolveStore`.
- **Orchestrator** (`HomeTest/main.py`). Modules `Delta` and `Job`.
  - `detect_delta` splits the sorted `(name, hash)` list into added, updated
    and skipped names against the previous hashes, and builds the new hash
    map.
  - `main()` runs the crawler and then the uploader, and exits 0 only when
    both succeed.

`wrappers.dfy` holds the `Option` datatype.

Four behaviours of the code are worth stating outright, because a reader
could easily expect otherwise:

- **What the hash covers.** The content hash covers only the normalised
  markdown (data-crawl.py:167-169), not the `# title` / `**Source:**` header
  written into the file at lines 183-187. A change to an article's title or
  URL alone is therefore skipped, and the uploaded file keeps the old header
  (`Crawl.HeaderChangeNotDetected`).
- **Delete order.** For an updated article the uploader deletes the old file
  from the provider first and only then detaches it from the vector store
  (upload_to_vector_store.py:184-185). `Upload.RetireBeforeUpload` states this
  order, and proves that both requests are sent whatever their outcome.
- **When the new hash is saved.** The crawler records the new hash in its
  MongoDB metadata (data-crawl.py:190-198) and saves it at the end of the
  crawl (line 211), before the uploader runs. The uploader reads and writes a
  separate `metadata.json`. So if the upload of a changed article fails, the
  next crawl finds the stored hash equal to the article's and skips it; the
  upload is not retried (`Crawl.UnchangedArticleSkipped`).
- **Dead skip branch.** The check at data-crawl.py:144-146 can never fire:
  line 138 has already stopped the crawl on the same condition. In
  `Crawl.Step` and `Crawl.VisitArticle` the model keeps the test but proves
  the branch unreachable, instead of modelling its `skipped_count += 1`.

## Model

| member | source | states |
|---|---|---|
| Text.Lower | HomeTest/scripts/data-crawl.py:40 | `text.lower()` keeps the length, maps each of `A-Z` to the letter 32 code points above it in `a-z` (`Text.LowerChar`), and leaves every other character alone |
| Text.SlugifyShape | HomeTest/scripts/data-crawl.py:39-40 | `slugify` (`Text.Slugify`) returns a well-formed slug: only `[a-z0-9-]`, no leading or trailing `-`, no `--`. Its letters and digits are exactly those of the lower-cased title, in order |
| Text.SlugifyFixesSlugs | HomeTest/scripts/data-crawl.py:39-40 | a well-formed slug is its own slug |
| Text.SlugifyIdempotent | HomeTest/scripts/data-crawl.py:39-40 | `slugify(slugify(t)) == slugify(t)` |
| Text.ReplaceRunsCollapsed | HomeTest/scripts/data-crawl.py:40 | after `re.sub(r'[class]+', rep, s)`, every class character is `rep` and no two class characters are adjacent |
| Text.ReplaceRunsKeep | HomeTest/scripts/data-crawl.py:40 | the substitution keeps every character outside the class, in order |
| Text.StripIsSlice | HomeTest/scripts/data-crawl.py:40 | `str.strip` returns a contiguous slice of its input, and neither end of that slice is a stripped character |
| Text.NormalizeShape | HomeTest/scripts/data-crawl.py:168 | `re.sub(r'\s+', ' ', s).strip()` (`Text.NormalizeWhitespace`) has single spaces only, none at either end, and the same non-whitespace characters in the same order |
| Text.NormalizeFixesSingleSpaced | HomeTest/scripts/data-crawl.py:168 | normalisation leaves an already single-spaced, trimmed text alone |
| Text.NormalizeIdempotent | HomeTest/scripts/data-crawl.py:168 | normalising twice is normalising once |
| Crawl.GetCategory | HomeTest/scripts/data-crawl.py:88-102 | "new" iff first run or unknown id; `None` iff a stored, non-empty hash equals the new one; "updated" iff the id is known and the stored hash is missing, empty or different |
| Crawl.VisitArticle | HomeTest/scripts/data-crawl.py:130-206 | one iteration of the article loop leaves exactly the counters, metadata and stop flag of `Step`: drafts are ignored, a stale article or a full cap stops, an unchanged article is counted as skipped, any other is saved with its old file id |
| Crawl.CrawlPages | HomeTest/scripts/data-crawl.py:119-208 | the page loop ends with the metadata, the four counters and the crash flag of `Run` over the pages |
| Crawl.MetadataCollection.Load | HomeTest/scripts/data-crawl.py:46-58 | `load_metadata` gives every stored record, or `{}` when the database cannot be read |
| Crawl.MetadataCollection.Save | HomeTest/scripts/data-crawl.py:60-75 | `save_metadata` upserts every record when the write succeeds; when it fails it raises and the collection is unchanged |
| Crawl.CrawlScript | HomeTest/scripts/data-crawl.py:107-211 | the script treats a failed second read as a first run; it saves the crawled metadata only when no exception escaped the crawl loop and the write succeeded, and it succeeds exactly then |
| Crawl.RunConsistent | HomeTest/scripts/data-crawl.py:138-204 | the loop keeps `crawled_count <= 40` and `new_count + updated_count == crawled_count` |
| Crawl.CrawlCapped | HomeTest/scripts/data-crawl.py:138-204 | a whole crawl saves at most 40 articles, each counted as new or updated |
| Crawl.FullCrawlStops | HomeTest/scripts/data-crawl.py:138-141 | once 40 articles are saved, the next non-draft article stops the crawl without being processed |
| Crawl.DraftIgnored | HomeTest/scripts/data-crawl.py:131-132 | a draft changes nothing, not even a counter |
| Crawl.DraftsIgnored | HomeTest/scripts/data-crawl.py:130-132 | removing every draft from every page gives the same crawl result |
| Crawl.StaleEndsCrawl | HomeTest/scripts/data-crawl.py:122-141 | on a non-first run, the first non-draft article at or before the cutoff ends the crawl; nothing after it, on its page or on later pages, affects the result |
| Crawl.FirstRunIgnoresCutoff | HomeTest/scripts/data-crawl.py:138-146 | on a first run the cutoff plays no part, neither in the stop test of line 138 nor in `should_crawl_article` (`Crawl.ShouldCrawl`, lines 85-86) at line 144: any two cutoffs give the same result |
| Crawl.CrawlKeepsFileIds | HomeTest/scripts/data-crawl.py:190-198 | after a crawl, no record was removed; every record keeps the `openai_file_id` it had before; a record the crawl created has none |
| Crawl.RunFrame | HomeTest/scripts/data-crawl.py:190 | a record whose id appears on no page is left exactly as it was |
| Crawl.UnchangedArticleSkipped | HomeTest/scripts/data-crawl.py:172-177 | an admitted article whose stored hash matches only moves `skipped_count`, so it does not use up the cap |
| Crawl.ArticleSaved | HomeTest/scripts/data-crawl.py:172-204 | an admitted article that `get_category` files as "new" (unknown id, or any id on a first run) or "updated" (known id, stored hash missing or different) is saved with the new title, slug, times, category and hash, keeping its old file id or none for an unknown id; `crawled_count` and that category's counter move by one and the crawl goes on |
| Crawl.HeaderChangeNotDetected | HomeTest/scripts/data-crawl.py:167-187 | the hash ignores the title/URL header written to the file, so a change to the title or URL alone is skipped |
| Upload.FirstNamedIsFirst | HomeTest/scripts/upload_to_vector_store.py:89-93 | the search finds nothing iff no listed store has the name; otherwise it returns the first store with that exact name |
| Upload.ResolveStore | HomeTest/scripts/upload_to_vector_store.py:75-112 | the first store with the name is returned; a store is created only when the listing succeeded and nothing matched; any failed request gives `None` |
| Upload.IndexStore.DeleteFileFromOpenAI | HomeTest/scripts/upload_to_vector_store.py:45-57 | the delete request is logged with its outcome, and the returned flag is that outcome |
| Upload.IndexStore.DeleteFileFromVectorStore | HomeTest/scripts/upload_to_vector_store.py:59-73 | the detach request is logged with its outcome, and the returned flag is that outcome |
| Upload.IndexStore.CreateFile | HomeTest/scripts/upload_to_vector_store.py:188-194 | the upload is logged; it returns the new id, or `None` when the upload raised |
| Upload.IndexStore.AddFileToVectorStore | HomeTest/scripts/upload_to_vector_store.py:114-130 | the add request is logged with its outcome, and the returned flag is that outcome |
| Upload.FindCharacterized | HomeTest/scripts/upload_to_vector_store.py:169-178 | a match is the first entry whose slug plus ".md" is the file name; there is no match iff every entry has a slug and none fits; the lookup raises iff an entry without a slug comes first |
| Upload.FindArticle | HomeTest/scripts/upload_to_vector_store.py:170-174 | the `for ... break` loop returns the lookup result above |
| Upload.RetireAndPlace | HomeTest/scripts/upload_to_vector_store.py:180-199 | for a matched article, the requests sent are the two deletions (updated file with a truthy old id only), then the upload, then the add (only when the upload returned an id); the upload's id is returned |
| Upload.ReconcileFile | HomeTest/scripts/upload_to_vector_store.py:165-205 | one file: the lookup raises, or the file is skipped with no request, or the requests above are sent and a returned id is recorded in the matched entry and counted |
| Upload.UploadPass | HomeTest/scripts/upload_to_vector_store.py:165-241 | one pass over a file list ends with the metadata, counter, raised flag and appended requests of `ProcessAll` |
| Upload.UploadArticles | HomeTest/scripts/upload_to_vector_store.py:133-249 | with no vector store, it returns early and sends no file request. Otherwise it sends the updated pass's requests, then the new pass's. If a lookup raised, `metadata.json` is not written. If not, `metadata.json` gets the final metadata, its keys still unique, and the two counters are returned |
| Upload.RaisedIsFinal | HomeTest/scripts/upload_to_vector_store.py:171-174 | once a lookup has raised, the rest of the files change nothing |
| Upload.ProcessAllFacts | HomeTest/scripts/upload_to_vector_store.py:165-241 | a pass changes only `openai_file_id` values, counts at most one upload per file, only appends requests, and does nothing once raised |
| Upload.UploadBounds | HomeTest/scripts/upload_to_vector_store.py:161-249 | `updated_uploaded <= len(updated_files)`, `new_uploaded <= len(new_files)`, and the saved metadata differs from the loaded one only in file ids, so unique keys stay unique |
| Upload.UnmatchedFileIgnored | HomeTest/scripts/upload_to_vector_store.py:176-178 | a file that no slug names sends no request and changes nothing |
| Upload.UploadRecorded | HomeTest/scripts/upload_to_vector_store.py:194-203 | after an upload that returned an id, the matched entry holds that id and the counter moves, whether or not the add to the store succeeded; every other entry is unchanged |
| Upload.FailedUploadLeavesRecord | HomeTest/scripts/upload_to_vector_store.py:204-205 | when the upload raises, the entry and the counter stay as they were and the pass goes on |
| Upload.RetireBeforeUpload | HomeTest/scripts/upload_to_vector_store.py:180-194 | for an updated file with an old id, the delete and the detach of that id are sent, in that order, before the upload, whatever their outcome |
| Upload.NewFileNotRetired | HomeTest/scripts/upload_to_vector_store.py:223-230 | a new file's first request is its upload, even when its entry already has a file id |
| Upload.OldFileReplaced | HomeTest/scripts/upload_to_vector_store.py:180-199 | when the deletions and the upload succeed, the old file is gone from the provider and from the store, the new file exists, and it is in the store once the add succeeded |
| Delta.DetectDelta | HomeTest/main.py:40-74 | the loop returns the added, updated and skipped lists and the hash map of the specification functions; empty input gives three empty lists and an empty map |
| Delta.Partition | HomeTest/main.py:60-72 | the three lists together hold every input name exactly as often as the input does |
| Delta.Membership | HomeTest/main.py:65-72 | a name is in a list iff some input file of that name has that list's kind: not in the old map, a different old hash, or the same old hash |
| Delta.ExactlyOne | HomeTest/main.py:65-72 | with distinct names, each name is in "added" iff it is not in the old map, in "updated" iff its old hash differs, and in "skipped" iff it is equal |
| Delta.HashesKeys | HomeTest/main.py:46-63 | `current_hashes` has exactly the input names as keys; old entries for vanished files are dropped |
| Delta.HashesValues | HomeTest/main.py:62-63 | with distinct names, each name maps to its own hash |
| Delta.RerunFindsNothing | HomeTest/main.py:65-72 | a rerun with the returned map as the old hashes and unchanged files finds nothing added or updated, and skips every file |
| Delta.ListsSorted | HomeTest/main.py:52-60 | when the input names are sorted, each output list is sorted |
| Job.Succeeded | HomeTest/main.py:76-101 | a step succeeds iff its child process exited with status 0; a timeout or a launch error is a failure |
| Job.Main | HomeTest/main.py:130-155 | the uploader runs iff the crawler succeeded; the job succeeds iff both steps succeed |
| Job.JobExit | HomeTest/main.py:157-159 | the exit status is 0 iff the job succeeded, and 1 otherwise |
| Job.ScriptExit | HomeTest/scripts/data-crawl.py:210-218 | a script that falls off its last line exits 0 unless an exception escaped; `Job.CrawlerSuccessIsStepSuccess` ties this to `Job.Succeeded`: the crawler step succeeds iff `Crawl.CrawlScript` reports `ok` |
| Job.UploaderExitAsWritten | HomeTest/scripts/upload_to_vector_store.py:290-291 | as written, the uploader exits 0 unless a lookup raised, even when no vector store was found |
| Job.StoreFailureReportedAsSuccess | HomeTest/scripts/upload_to_vector_store.py:290-291 | with a successful crawl and no vector store, the job reports success |
| Job.UploaderExit | HomeTest/scripts/upload_to_vector_store.py:288-291 | corrected: the uploader exits 0 iff `upload_articles()` returned True |
| Job.JobSuccessMeansUploaded | HomeTest/main.py:136-143 | with the corrected exit status, the job succeeds iff the crawl succeeded and the upload pass completed |

## Left out

- HTTP, MongoDB, the OpenAI SDK, the file system and `subprocess` are not
  modelled. Their answers are inputs instead: the pages of a crawl, the
  success flags of the metadata reads and writes, and each file's remote
  `Response`.
- BeautifulSoup cleaning and markdownify (data-crawl.py:151-167) are not
  modelled: an `Article` already carries its markdown.
- SHA-256 is an arbitrary function (`sha` in `Crawl.Config`). In
  `Delta.DetectDelta`, the file hashes are given with the names.
- Timestamp parsing and the clock are left out: times are integers and the
  cutoff is a parameter.
- An exception raised while processing an article (a missing `draft`,
  `title` or `html_url` key, a malformed or naive `updated_at`, a `None`
  title passed to `slugify`, a failed file write) is represented by a
  `Raised` response in place of that article's page. The outcome is the
  same, since the script then saves no metadata and exits 1, but where in
  the page the exception happened is not modelled.
- Text.Lower: models ASCII lower-casing only. Python's `str.lower()` also
  lower-cases non-ASCII letters, and maps U+0130 and U+212A to ASCII letters.
  Slugs of titles with such letters are therefore not modelled exactly.
- `Crawl.MetadataCollection.Save` treats a failed save as writing nothing. A
  save that fails part-way through its upserts is not modelled.
- The article files themselves (data-crawl.py:179-187) are not modelled,
  beyond their names being `slug + ".md"`.
- Not modelled for the uploader:
  - the upload log JSON and its `total_uploaded` (lines 251-263);
  - the `time.sleep(2)` (line 246);
  - the removal of the `new/` and `updated/` folders (lines 273-284);
  - the missing-API-key error of `get_client`.
- A failed `open` of a markdown file is treated like a failed
  `client.files.create`: both give `Upload(name, None)`.
- `metadata.json` is a sequence of entries in the dict's insertion order.
  Its keys are strings, as JSON keys are, and only `slug` and
  `openai_file_id` are typed; every other field is opaque. The source reads
  and writes `metadata[article_id]` by key, and the model uses the position
  of the matching entry; the two agree because the keys are unique
  (`Upload.UniqueKeys`, required by `Upload.UploadArticles` and kept by
  every pass).
- main.py's `load_hashes`, `save_hashes` and `get_file_hash` are file I/O,
  and `main()` never calls `detect_delta`. Only `detect_delta`'s logic is
  modelled.
- Job.Main: does not model the job's duration and its printed summary.

## Findings

| source | as written | input that shows it | evidently intended | confidence | as-written member | corrected member |
|---|---|---|---|---|---|---|
| HomeTest/scripts/upload_to_vector_store.py:290-291 | `upload_articles()` is called and its return value dropped, so `return False` at line 149 still exits 0 | the store listing succeeds but the create request fails (`Resolve` gives `None`): the uploader exits 0, and `main()` reports "JOB COMPLETED SUCCESSFULLY" | `sys.exit(0 if upload_articles() else 1)`, so a missing vector store fails the job | medium, not executed | Job.UploaderExitAsWritten | Job.UploaderExit |
