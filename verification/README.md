# Verification of the search backend

A Dafny model of the parts of the scholarly search backend that keep state, run
protocols or must read back what they wrote, with proofs about them.
`dafny verify dfyconfig.toml` verifies the whole project.

| files | part |
|---|---|
| `Wrappers`, `Sequences`, `Numbers`, `Decimal`, `Text` | optional values, facts about sequences, rounding, decimal numbers, the string functions of the Go library the code relies on |
| `FrozenMarkdown`, `FrozenFrontMatter`, `FrozenSections`, `FrozenQuotes`, `FrozenRoundTrip`, `FrozenWhole`, `FrozenCode`, `FrozenContents`, `FrozenByHand` | the frozen-markdown printer and its parsers |
| `JsonRecovery`, `JsonGrammar`, `JsonFences`, `JsonRepair` | finding and repairing JSON objects in a model's answer |
| `SearchJob`, `SearchJobWorker`, `SearchJobSafety`, `SearchJobCounters`, `SearchJobGaps`, `SearchJobCoverage`, `SearchJobDecision` | the search job, its live scan and its persisted row, under crashes |
| `Extraction`, `ExtractionSafety`, `ExtractionFrozen`, `ExtractionCode`, `ExtractionRows`, `ExtractionReadBack` | the claim protocol of quote extraction, files and stamps |
| `Lru`, `LruHistory` | the translation cache |
| `RateLimit`, `Breaker`, `Pacing`, `Retry` | the rate limiter, the circuit breaker, request pacing, retry loops |
| `Rotation`, `ImageTools` | image rotation and the registry of tool images |
| `Resolver`, `ResolverPages`, `InvertedIndex`, `Cascade` | full-text merging, inverted indexes, metadata enrichment |

Code that updates fields or loops is modelled by classes and methods, each proved
equal to a specification function or against a history; the theorems are about those
functions. Protocols are step machines: a theorem about `Run(s, actions)` speaks of
every interleaving, every crash point and every passage of time.

## How the model reads the code

- Text is a sequence of Unicode code points. Go works on bytes; the two agree on all
  the code modelled here except for what `sectionBody` leaves over when it finds a
  header at index 0: its last byte in Go, its last character here. Either way the
  leftover stays in front of the text.
- The printing of relevance numbers is a pair of functions, `NumberFormat`. Results
  about quotes assume of the numbers that are printed, and of no others, that they
  are printed as words that parse back (`FrozenMarkdown.Prints`, `Sound`); a format
  that does so for all whole percents is `FrozenWhole.PERCENTS`, by `PercentsPrint`.
- A run of a search job is the list of what it does to the outside world: fetches,
  progress snapshots and one terminal write. A crash is a prefix of that list; any
  progress write may be lost, because `UpdateProgress` errors are only logged.
- What sources, databases and files answer is a parameter (`World`, `Course`,
  `Reply`, `Turn`, `fetch`), quantified over in the theorems.
- Times are integers: seconds for leases and circuits, milliseconds for the rate
  limiter and retries. All workers read one clock.
- Sizes of scaled images are computed over the reals.

## What the proofs found

- `sectionBody` resets its start when a header is found at index 0
  (backend/internal/service/localstore.go:368-371). A record without a TLDR starts
  its body with the abstract's header, so its abstract is never read back as written.
- The TLDR is written on one line under its header. A TLDR that begins with another
  section's header hides that section, and so does an abstract with such a line.
- A line that poses as the quotes header is read in place of the quotes. Otherwise
  quotes come back unless a location or rationale spans lines.
- A job's source timing is written before its failure list. A crash between the two
  leaves a failed source that the next run never reports: the job ends as completed.
- The branch that copies aggregated source health sets all sources done without
  timings. If the run then crashes and a later run scans, a further crash makes the
  job look finished after its first source; the rest is never tried. A job that ends well
  has tried every source exactly if its last run scanned or had nothing left to scan.
- `UpdateProgress` does not write the status, so a persisted job is never `running`.
- Outcome writes do not look at the row. A done row can be overwritten exactly while
  somebody is still at work on its article, which a stale claim makes possible.
- An answer whose code fence has no second fence and no line break yields no objects:
  its opening fence is taken for the closing one.
- Two DOIs that differ only in slashes against underscores share a file.
- A fixed window admits fewer than twice the limit, and the bound is reached.
- A tool's image can overwrite another one exactly if the registry starts with a name
  that tools come to from some usable image, `id-tool-n`, `id-tool-n-tool-m` and so on,
  with rising numbers not below the registry's size.

## Model

| member | source | states |
|---|---|---|
| FrozenCode.RenderFrozenMD | backend/internal/service/localstore.go:209-281 | the printer's loops write exactly the text of the format the round-trip theorems speak about |
| FrozenCode.ParseFrontMatter | backend/internal/service/localstore.go:309-358 | the loop over front-matter lines, with its pending list, computes the run of the line automaton |
| FrozenCode.ParseQuotesSection | backend/internal/service/localstore.go:385-426 | the loop over quote lines, with its current quote, computes the run of the quote automaton |
| Text.CollapseWord | backend/internal/service/localstore.go:289-291 | a word is left as it is |
| Text.CollapsePad | backend/internal/service/localstore.go:289-291 | white space around a text does not matter |
| Text.CollapseGap | backend/internal/service/localstore.go:289-291 | white space between two texts becomes one space, and both are kept |
| Text.CollapseKeepsInk | backend/internal/service/localstore.go:289-291 | every character that is not white space is kept, in order |
| FrozenFrontMatter.ParseOfRender | backend/internal/service/localstore.go:296-358 | every rendered file parses into its expected front matter and its body |
| FrozenContents.FormulasAndFiguresWritten | backend/internal/service/localstore.go:235-262 | every formula with a text and every figure with a markdown is in the body of the file, with its labelled location and caption, and a figure with its kind |
| FrozenContents.SummaryWritten | backend/internal/service/localstore.go:228-230 | a summary is written at the start of the body, collapsed, under its header |
| FrozenByHand.LastLineDecides | backend/internal/service/localstore.go:309-358 | in any front matter a key has the value of its last line, or, if that is empty, the items behind it up to a blank line or another key, joined by NUL |
| FrozenByHand.NoLineNoEntry | backend/internal/service/localstore.go:309-358 | and a key without a line has no value |
| FrozenByHand.FrontLineKinds | backend/internal/service/localstore.go:313-334 | which lines of the front matter are blank, items, or without a colon |
| FrozenByHand.FrontLineIndented | backend/internal/service/localstore.go:313-334 | white space in front of a line of the front matter does not matter |
| FrozenByHand.FrontLineEnds | backend/internal/service/localstore.go:313-316 | a carriage return behind such a line does not matter |
| FrozenByHand.BlocksRead | backend/internal/service/localstore.go:385-426 | any list of quotes with any attribute lines is read quote by quote: the last location, the last rationale, the last relevance that is a number, and nothing of other keys |
| FrozenByHand.QuoteItem | backend/internal/service/localstore.go:392-398 | a quote reads the same with the label `text:` and without it |
| FrozenByHand.QuoteLineKinds | backend/internal/service/localstore.go:389-426 | which lines of the quotes section start a quote, and which are attributes |
| FrozenByHand.AttributeParts | backend/internal/service/localstore.go:399-426 | the first colon of an attribute ends its key, and both sides are trimmed |
| FrozenByHand.HeaderAtStart | backend/internal/service/localstore.go:360-377 | a section whose header is the very start of the body is read if no other line starts with the header |
| FrozenByHand.MalformedIff | backend/internal/service/localstore.go:296-307 | a file is malformed iff it starts with dashes and no line of dashes follows |
| FrozenByHand.FrontEndsFirst | backend/internal/service/localstore.go:296-307 | otherwise the front matter ends at the first such line, whatever blanks are behind its dashes |
| FrozenByHand.QuotesMissIff | backend/internal/service/localstore.go:150-166 | reading quotes misses iff there is no DOI, no file, or a malformed one; a file without the header has no quotes |
| FrozenByHand.FieldsFallBack | backend/internal/service/localstore.go:85-145 | a field without a line, or with an empty one, is the caller's |
| FrozenByHand.ListedAuthorsRead | backend/internal/service/localstore.go:111-122 | the authors of any list are its non-empty items in order, or the caller's if there are none |
| FrozenByHand.SectionsFallBack | backend/internal/service/localstore.go:85-145 | a file that is not malformed is read, and a section that is missing or blank is the caller's |
| FrozenSections.ReadFirst | backend/internal/service/localstore.go:360-377 | the first stretch of a body that holds a header line decides what the section reads, up to the next section |
| FrozenSections.ReadAtStart | backend/internal/service/localstore.go:360-377 | a header at the very start of the body is read with the header's last character left over |
| FrozenRoundTrip.AtStartNeverReadsBack | backend/internal/service/localstore.go:368-371 | a section at the start of the body is never read back as its trimmed text |
| FrozenRoundTrip.AbstractReadsBack | backend/internal/service/localstore.go:224-377 | the abstract is read back as written iff there is a TLDR, it does not pose as the abstract's header, and no line of the abstract starts a section (or the posing line happens to carry the same text) |
| FrozenRoundTrip.FullTextReadsBack | backend/internal/service/localstore.go:224-377 | the full text is read back as written iff neither the TLDR nor a line of the abstract poses as its header and none of its own lines starts a section (or the posing line happens to carry the same text) |
| FrozenWhole.QuotesReadBack | backend/internal/service/localstore.go:150-166 | if no line poses as the quotes header and every location and rationale is on one line, all quotes come back in order with their fields; for fields as the extractor leaves them they come back iff the fields are on one line, or the posing line's section happens to hold the same quotes |
| FrozenWhole.ReadQuotesOfRender | backend/internal/service/localstore.go:150-166 | what a reader gets for any rendered record: the section of the posing line if there is one, and the record's own quotes section otherwise |
| FrozenWhole.UnshadowedDoesNotPose | backend/internal/service/localstore.go:360-377 | no line poses as the quotes header if neither the TLDR nor a line of the abstract, the full text, a formula or a figure starts with it |
| FrozenWhole.AuthorsReadBack | backend/internal/service/localstore.go:111-122 | the non-blank authors come back in order iff none of them holds the NUL separator |
| FrozenWhole.RecordReadsBack | backend/internal/service/localstore.go:85-145 | reading a frozen record returns every field that was written, collapsed or trimmed, with the caller's values for blank ones |
| Decimal.AtoiOfIntToString | backend/internal/service/localstore.go:105-110 | a printed year in the 64-bit range reads back as itself, and is printed without leading zeros |
| Decimal.AtoiIff | backend/internal/service/localstore.go:105-110 | a year is read iff it is digits, perhaps behind a sign, and fits 64 bits |
| JsonRecovery.JsonCandidates | backend/internal/service/perelman.go:347-396 | the scanner's nested loops return the candidates of the unfenced text |
| JsonRecovery.RepairJSONControlChars | backend/internal/service/perelman.go:433-487 | the repair's loop, two characters at an escape, is the one-character transducer |
| JsonGrammar.ClosesIffObject | backend/internal/service/perelman.go:365-391 | behind a brace the scan closes after n characters iff they complete an object of the grammar, so the shortest one is found |
| JsonGrammar.ScannerMeetsGrammar | backend/internal/service/perelman.go:357-395 | a list is what the scanner returns iff it is the list of in-order disjoint objects, ending where no brace is left or the next one never closes |
| JsonFences.PlainAnswer | backend/internal/service/perelman.go:347-396 | of an answer that does not start with a fence exactly its in-order disjoint objects are found |
| JsonFences.FencedAnswer | backend/internal/service/perelman.go:347-396 | of a fenced answer exactly the objects between the opening fence's line and the last fence, whatever the language and the prose behind |
| JsonFences.OpenAnswer | backend/internal/service/perelman.go:347-396 | of an answer whose fence is never closed exactly the objects behind the opening fence's line |
| JsonFences.OneLineAnswer | backend/internal/service/perelman.go:347-396 | of a fenced single line exactly the objects in front of its last fence |
| JsonFences.PaddedAnswer | backend/internal/service/perelman.go:347-348 | white space around an answer does not matter |
| JsonRepair.RepairKeepsState | backend/internal/service/perelman.go:433-470 | the repaired text ends in the same string state as the text |
| JsonRepair.RepairCleans | backend/internal/service/perelman.go:433-470 | no control character is left inside a string |
| JsonRepair.RepairUnchanged | backend/internal/service/perelman.go:433-470 | the repair changes a text iff some string holds a control character |
| JsonRepair.RepairIdempotent | backend/internal/service/perelman.go:433-470 | repairing twice is repairing once |
| JsonRepair.RepairKeepsMeaning | backend/internal/service/perelman.go:433-487 | strictly decoding repaired string content gives the original content's characters, escape by escape |
| JsonRepair.EscapeIsShort | backend/internal/service/perelman.go:472-487 | an escape is two characters long where JSON has a short form, and six otherwise |
| JsonRepair.RepairedReadsAsOriginal | backend/internal/service/perelman.go:425-487 | the repaired content reads strictly as the original reads leniently iff no backslash escapes a raw control character, or the content stays invalid |
| JsonRepair.RepairedCandidate | backend/internal/service/perelman.go:347-396 | the repair of any object found is a text whose only object is that repair |
| SearchJob.SearchJobs.Update | backend/internal/repository/searchjobs.go:181-212 | the full write replaces everything but the request's own fields |
| SearchJob.SearchJobs.UpdateProgress | backend/internal/repository/searchjobs.go:233-259 | the progress write leaves status and end time alone |
| SearchJobWorker.SearchJobWorker.OnProgress | backend/internal/jobs/searchjob.go:377-402 | a progress event changes stage and counters and writes one snapshot |
| SearchJobWorker.SearchJobWorker.OnProfile | backend/internal/jobs/searchjob.go:429-449 | a profile event times one source and writes one snapshot |
| SearchJobWorker.SearchJobWorker.ProcessSource | backend/internal/service/ingest_live.go:187-268 | the pipeline of one source has exactly the specified effects, whatever fails |
| SearchJobWorker.SearchJobWorker.IngestQuery | backend/internal/service/ingest_live.go:83-183 | the scan skips timed sources, counts the others and has exactly the specified effects |
| SearchJobWorker.SearchJobWorker.Work | backend/internal/jobs/searchjob.go:39-209 | a whole run has exactly the specified effects |
| SearchJobDecision.ScansIff | backend/internal/jobs/searchjob.go:253-285 | a run writes a scanning snapshot iff its row has timings of an unfinished scan, a refresh is asked for, the index has no hits, or no recent scan is known |
| SearchJobDecision.FetchesIff | backend/internal/service/ingest_live.go:129-268 | a run fetches a source iff a scan is due, the source is in the registry without a timing and can be asked, and every source before it lets the scan go on |
| SearchJobDecision.FetchedInOrder | backend/internal/service/ingest_live.go:129-268 | the fetches of a run, each once and in the registry's order |
| SearchJobDecision.FailsIff | backend/internal/jobs/searchjob.go:104-209 | a run fails iff the index cannot be asked, a due scan is stopped by a source, or the results cannot be ranked; its row then shows the failed stage and otherwise the completed one |
| SearchJobDecision.RunReports | backend/internal/jobs/searchjob.go:104-209 | a run that does not fail is partial iff some source failed; after a scan the failures are those it started with and, in order, the sources without a timing that were not fetched, the timings say how each went, and the counters are those of the registry |
| SearchJobDecision.RunShows | backend/internal/jobs/searchjob.go:39-209 | a run first shows its row running with nothing else changed, then its decision; every fetch stands behind a scanning snapshot, and a run that ends well stands behind one that searches the index |
| SearchJobDecision.UnscannedShows | backend/internal/jobs/searchjob.go:104-231 | a run that does not scan writes health counters iff it starts without timings and they are known, and shows nothing else before it searches the index |
| SearchJobDecision.RunsIffOpen | backend/internal/jobs/searchjob.go:55-58 | work starts on a row iff it is not terminal and has no end time |
| SearchJobDecision.RowShows | backend/internal/repository/searchjobs.go:181-259 | what a row shows behind each kind of write, and what a write leaves alone |
| SearchJobSafety.NeverFetchedAgain | backend/internal/jobs/searchjob.go:104-132 | over any runs, crashes and lost writes, a source whose timing has reached the row is never fetched again and its timing stays |
| SearchJobSafety.TerminalRowIsFinal | backend/internal/jobs/searchjob.go:55-58 | the row of a new job never shows it running, and nothing happens after it turns terminal |
| SearchJobCounters.ScanReportsAll | backend/internal/service/ingest_live.go:98-183 | a scan that reaches its end reports all sources done iff it did not start with more done than resumed |
| SearchJobCounters.DoneWithinTimings | backend/internal/jobs/searchjob.go:377-449 | without the health branch the row never counts more sources done than it has timings, even if the registry changes between runs |
| SearchJobCounters.CompletedCoversRegistry | backend/internal/jobs/searchjob.go:104-209 | without the health branch and with one registry, a job that ends well has a timing for every source and no other |
| SearchJobCoverage.EndsCoveredIff | backend/internal/jobs/searchjob.go:104-209 | a run that ends its job well leaves a timing for every source iff it rescans or started on a row that has them all |
| SearchJobCoverage.HistoryEndsCoveredIff | backend/internal/jobs/searchjob.go:104-231 | the same over any history of a new job with one registry, health branch, crashes and lost writes included |
| SearchJobCounters.ScanFromHistoryReportsAll | backend/internal/service/ingest_live.go:98-183 | from any row such a job can have, a scan that reaches its end reports done equal to total |
| SearchJobGaps.CompletedHidesFailure | backend/internal/jobs/searchjob.go:176-193 | a run reports completed although a source failed iff it started on a row with a failed timing and an empty failure list |
| SearchJobGaps.CrashBetweenWrites | backend/internal/service/ingest_live.go:221-230 | a crash between the two writes of a first failed source leaves such a row |
| SearchJobGaps.HealthBranchSkipsSources | backend/internal/jobs/searchjob.go:213-231 | after the health branch two crashes suffice for a job to end well with one source tried |
| ExtractionCode.Extractor.ClaimArticle | backend/internal/repository/quotes.go:53-111 | a claim is won on new, failed, no-text and stale pending rows only, and is the protocol's step |
| ExtractionCode.Extractor.SetOutcome | backend/internal/repository/quotes.go:213-232 | an outcome write replaces the row without looking at it |
| ExtractionCode.Extractor.SetDoneFrozen | backend/internal/repository/quotes.go:162-196 | the stamp and the done row are written together or not at all |
| ExtractionCode.Extractor.Save | backend/internal/service/localstore.go:170-207 | the file is whole under a temporary name before it is renamed; a failed save leaves nothing published |
| ExtractionCode.Extractor.ExtractOne | backend/internal/service/extract.go:126-161 | one worker's path is a run of the protocol's steps, in this order |
| ExtractionRows.CourseEnds | backend/internal/service/extract.go:126-161 | for every course of one worker: errors, failed saves and failed stamps leave the row failed, nothing found leaves it without text, and success leaves the row done with the result, the file whole and the article stamped |
| ExtractionRows.PreprintCourse | backend/internal/service/extract.go:93-136 | a preprint's worker starts without a claim, and for every course everything is as it was when it is gone |
| ExtractionRows.PhasesFollow | backend/internal/service/extract.go:126-161 | a step moves a worker on by one phase of its way, keeps its article and never leads back; a new worker has claimed its article or read it as a preprint |
| ExtractionRows.SaveEnds | backend/internal/service/localstore.go:170-207 | a save publishes the whole file or leaves the files as they were |
| ExtractionRows.ClaimIsWonIff | backend/internal/repository/quotes.go:53-111 | a claim is won iff the article has no row, a failed or empty one, or a claim of more than a quarter of an hour ago |
| ExtractionRows.QuotesStayAlong | backend/internal/repository/quotes.go:53-232 | along any run no row is lost, and its quotes and summary change only when the row is completed |
| ExtractionRows.CompletionReplaces | backend/internal/repository/quotes.go:162-196 | and a completion replaces them by those of the frozen result |
| ExtractionSafety.PreprintWritesNothing | backend/internal/service/extract.go:93-136 | after any run, a step of a worker that read its article as a preprint writes neither row nor file nor stamp |
| ExtractionSafety.ClaimsSeparated | backend/internal/repository/quotes.go:53-111 | in every interleaving two successive won claims are separated by a failed or no-text write, or by more than the lease of untouched pending |
| ExtractionSafety.OneOwner | backend/internal/service/extract.go:93-120 | if owners write or die within the lease, no article has two owners at work |
| ExtractionSafety.DoneIsFinal | backend/internal/repository/quotes.go:162-232 | and a done row is never written again |
| ExtractionSafety.DoneOverwritable | backend/internal/repository/quotes.go:213-232 | without that assumption, a done row can still be overwritten iff somebody is at work on its article |
| ExtractionSafety.LateOwnerReachable | backend/internal/service/extract.go:126-161 | such a state is reached from the start by a stale takeover |
| ExtractionFrozen.ArticleStep | backend/internal/repository/articles.go:122-145 | no step, upserts included, changes an article's DOI, and only the completion of its row changes its stamp |
| ExtractionFrozen.ArticleAppears | backend/internal/repository/articles.go:122-145 | an article appears only by an upsert, with its DOI and path |
| ExtractionFrozen.DoneImpliesFrozen | backend/internal/service/extract.go:143-149 | in every reachable state a done row's article is stamped with its file name and that file is whole |
| ExtractionFrozen.FileMatchesRow | backend/internal/repository/quotes.go:160-196 | with timely owners and distinct file names the file holds the quotes and summary of the row |
| ExtractionFrozen.FileNamesCollide | backend/internal/service/localstore.go:53-62 | two DOIs share a file name iff they differ only in slashes against underscores |
| ExtractionRows.FileStaysInside | backend/internal/service/localstore.go:53-71 | for every key the file name has no separator, is not hidden and ends in `.md` |
| ExtractionRows.FileNameOfKey | backend/internal/service/localstore.go:53-71 | a key that is not a DOI is named after its stretch from the first to the last letter or digit, other characters than letters, digits, dots, dashes and underscores replaced; a key without one is an article |
| ExtractionReadBack.DoneQuotesReadBack | backend/internal/service/localstore.go:150-166 | along timely runs the file of a done article is there, and if its quotes are on single lines and no line poses as their header, reading it returns its row's quotes in order |
| Lru.LruCache.Get | backend/internal/service/translate.go:246-256 | a hit returns the value and moves the key to the front; map and list stay in step |
| Lru.LruCache.Put | backend/internal/service/translate.go:258-279 | a put updates or inserts at the front and drops the oldest beyond the maximum; map and list stay in step |
| LruHistory.CachedIff | backend/internal/service/translate.go:230-279 | after any calls a key is cached iff it was put and fewer than max distinct other keys were touched since its own last touch, and it has its last value |
| RateLimit.RateLimiter.ServeHTTP | backend/internal/httpapi/ratelimit.go:44-67 | one request takes one atomic step of its client's counter and is admitted iff the count is within the limit; otherwise the client is told the seconds its counter still lives, rounded, or the whole window |
| RateLimit.ToldTimeSuffices | backend/internal/httpapi/ratelimit.go:53-63 | a client that comes back more than half a second behind the time it was told is the first of a new counter |
| RateLimit.LifetimeAdmits | backend/internal/httpapi/ratelimit.go:13-22 | every lifetime of a counter admits its first limit requests and no more |
| RateLimit.FewerThanTwiceTheLimit | backend/internal/httpapi/ratelimit.go:13-22 | every closed interval of the window's length admits fewer than twice the limit, for all histories, iff the window is at least a second |
| RateLimit.BoundIsReached | backend/internal/httpapi/ratelimit.go:13-22 | for every limit and window some history admits twice the limit less one |
| Rotation.RotateImage | backend/internal/service/perelman_images.go:167-193 | the two loops produce the rotated image, and the source itself for a full turn |
| Rotation.QuarterTurn | backend/internal/service/perelman_images.go:180-188 | a turn by 90 is clockwise, pixel by pixel; with composition this fixes every angle |
| Rotation.DestinationBijective | backend/internal/service/perelman_images.go:180-188 | the destinations of the pixels are one to one onto the rotated image |
| Rotation.RotationsCompose | backend/internal/service/perelman_images.go:167-193 | rotating by a then by b is rotating by a + b, negative multiples of 90 included |
| Rotation.RotationUndone | backend/internal/service/perelman_images.go:167-193 | rotating by a then by -a is the identity |
| ImageTools.ImageRegistry.ToolImage | backend/internal/service/perelman_images.go:88-102 | the scaled image is stored under a new name if it can be encoded, otherwise nothing changes |
| ImageTools.ImageRegistry.DispatchImageTool | backend/internal/service/perelman_images.go:104-153 | a tool call makes of the registry what the specification says |
| ImageTools.CallWritesOne | backend/internal/service/perelman_images.go:88-153 | a successful call writes one image under the generated name with both sides in 1..max and leaves every other entry alone; a failed call changes nothing |
| ImageTools.CallSucceedsIff | backend/internal/service/perelman_images.go:88-153 | a call succeeds iff its image is usable, its tool takes the arguments and pixels are left, and the new image has the tool's size, fitted |
| ImageTools.ZoomSizes | backend/internal/service/perelman_images.go:118-123 | a zoom takes factors in (0, 8] and gives both sides in proportion, rounded, at least one |
| ImageTools.CropSizes | backend/internal/service/perelman_images.go:124-143 | a crop takes exactly the regions inside the image and is less than a pixel off their size |
| ImageTools.RotateSizes | backend/internal/service/perelman_images.go:144-149 | a rotation takes exactly multiples of 90 after dropping fractions and gives the size of the rotated image |
| ImageTools.FitSizes | backend/internal/service/perelman_images.go:88-93 | an image within the maximum keeps its size; of a larger one the longer side becomes the maximum and the other follows in proportion |
| ImageTools.CallsAddFreshImages | backend/internal/service/perelman_images.go:36-153 | over any calls of which none overwrites, the images of the start stay, the registry grows by one per success, and what is added is within the bounds |
| ImageTools.OverwrittenIffAhead | backend/internal/service/perelman_images.go:36-153 | some sequence of calls overwrites an image iff the registry starts with a name ahead of it, one that tools come to from a usable image by numbers the growing registry will give out |
| ImageTools.TakenOverwrites | backend/internal/service/perelman_images.go:88-153 | such a sequence: looking at one image until the registry has grown to the number, then at the next of the chain |
| ImageTools.PlainRegistryGrows | backend/internal/service/perelman_images.go:36-153 | from a registry whose ids do not look like tool names nothing is ever overwritten |
| Breaker.Source.RecordRun | backend/internal/repository/sources.go:129-155 | after any runs total = successes + failures, the failure count is the trailing one, and the circuit is open until the last failure and a quarter of an hour iff there are three |
| Breaker.AttemptsAfterThirdFailure | backend/internal/service/ingest_live.go:149-167 | after three straight failures the next attempt starts no sooner than a quarter of an hour after the last one ended |
| Breaker.TurnedAwayIff | backend/internal/service/ingest_live.go:76-78 | a source is skipped iff its last three runs failed and the last of them is less than a quarter of an hour old |
| Resolver.CandidateURLs | backend/internal/connector/fulltext_resolver.go:64-77 | the loop keeps the first occurrences of non-blank candidates |
| ResolverPages.UniqueIs | backend/internal/connector/fulltext_resolver.go:64-77 | the candidates are exactly the trimmed non-blank URLs, each once |
| ResolverPages.UniqueGrows | backend/internal/connector/fulltext_resolver.go:64-77 | more URLs only add candidates at the end, so each stands where it first occurs |
| Resolver.Resolve | backend/internal/connector/fulltext_resolver.go:40-62 | the loop fetches all candidates, or twelve, or until the text is long enough, and merges each |
| ResolverPages.PageAdds | backend/internal/connector/fulltext_resolver.go:40-62 | a page that is not empty, not the existing text and not fetched before adds a space and what fits of it, trimmed at its end; any other page adds nothing |
| ResolverPages.PagesJoined | backend/internal/connector/fulltext_resolver.go:40-62 | as long as everything fits, the result is the existing text and all fresh pages joined by spaces in the order of the candidates |
| ResolverPages.NormalizeKeepsInk | backend/internal/connector/text.go:75-89 | normalising keeps every character that is not white space, in order |
| ResolverPages.NormalizeGap | backend/internal/connector/text.go:75-89 | white space around a text does not matter, and blanks, tabs and line ends between two texts become one space |
| Resolver.NormalizeIdempotent | backend/internal/connector/text.go:75-89 | normalising twice is normalising once |
| Resolver.ResolveKeeps | backend/internal/connector/fulltext_resolver.go:40-62 | the normalised existing text is a prefix of the result, at most twelve pages are fetched, the length is at most max(existing, 2,000,001) |
| Resolver.StepsLengthen | backend/internal/connector/fulltext_resolver.go:50-59 | every step keeps the text or makes it strictly longer at its end |
| InvertedIndex.RebuildInvertedIndex | backend/internal/connector/api_connectors.go:322-343 | from any index of a text, walked in any order, the result is the text's words joined by spaces; on distinct positions it is the words at non-negative positions, in order of position |
| InvertedIndex.ReconstructAbstract | backend/internal/service/doi_enrichment.go:409-430 | from any index of a text, walked in any order, the result is the text's words joined by spaces; on distinct positions all words in order of position, in general the words in some sorted order |
| InvertedIndex.IndexOfIff | backend/internal/connector/api_connectors.go:322-343 | an index is one of a text iff it holds every position once, for the word that stands there, and nothing else |
| InvertedIndex.RebuildersAgree | backend/internal/service/doi_enrichment.go:409-430 | on distinct positions both return the same text iff no position is negative, gaps or not, or the index holds nothing but one empty word |
| Pacing.Gate.Wait | backend/internal/service/llm.go:255-275 | a turn stamps no sooner than an interval after the last stamp, or not at all if its sleep is cancelled |
| Pacing.AskedIsLeast | backend/internal/service/llm.go:255-275 | a caller asks for the least sleep that puts it an interval behind the last stamp |
| Pacing.StampsApart | backend/internal/service/doi_enrichment.go:165-181 | for any number of callers and gates, in every interleaving, stamps i and j are at least j - i intervals apart |
| Pacing.SpacingIsReached | backend/internal/service/doi_enrichment.go:165-181 | and some run stamps exactly every interval |
| Pacing.HolderStays | backend/internal/service/doi_enrichment.go:165-181 | a gate has one caller at a time, who is in it until it stamps or cancels |
| Pacing.TurnStamps | backend/internal/service/doi_enrichment.go:165-181 | a turn at a free gate stamps iff its caller has slept as long as it asked, and is in the gate otherwise |
| Pacing.TurnCancelled | backend/internal/service/doi_enrichment.go:165-181 | a cancelled turn leaves its gate as it was |
| Retry.ChatWithExtra | backend/internal/service/llm.go:150-198 | posts are made exactly while replies are retried and nobody cancels, none if the first wait at the gate is cancelled and at most five, with the delays in between |
| Retry.EndsOnce | backend/internal/service/llm.go:150-198 | the replies and the cancellations decide how many posts a call makes and what it returns |
| Retry.SteadyReply | backend/internal/service/llm.go:150-198 | a service that always replies the same gets one post, three, or five if it is overloaded, and the caller gets that reply |
| Retry.PostsIff | backend/internal/service/llm.go:150-198 | no post is made behind a cancellation or a reply that is not retried, and another one is made where there is neither |
| Retry.AbandonedIff | backend/internal/service/llm.go:150-198 | a caller is told of its cancellation iff it was never posted, its last reply is one that is retried, or it had cancelled by the time of a reply without an answer |
| Retry.RetriedReply | backend/internal/service/llm.go:162-197 | a reply beyond the third is retried only if it says overloaded, a terminal one never; the delay is the service's own, or 2 and 4 or 4, 8, 16 and 30 seconds, and 600 and 1200 milliseconds behind network errors |
| Retry.AgentLoop | backend/internal/service/perelman.go:174-248 | the loop makes at most the tool turns and two calls of the client and, over all their replies, at most five posts for each; it goes on exactly behind tool calls and retried rate limits, four rate limits in a row end it, an empty message or a bad request leads to one last call, and its ending says what the last call gave |
| Retry.BudgetIsReached | backend/internal/service/perelman.go:174-248 | some script of replies makes any number of calls with five posts each and tool calls to the end |
| Cascade.Article.ApplyCascade | backend/internal/service/doi_enrichment.go:457-516 | each missing field takes the first value in cascade order, abstracts cut to 8000, others stay, and changed is reported iff something was filled |
| Cascade.FirstSourceWins | backend/internal/service/doi_enrichment.go:457-516 | a missing field takes the value of the first source that has one, an abstract its first 8000 characters |
| Cascade.MissingIff | backend/internal/service/doi_enrichment.go:110-138 | missing are the empty fields, and authors that are none or hold a placeholder |
| Cascade.StillMissingIff | backend/internal/service/doi_enrichment.go:457-516 | after the cascade a field is missing iff it was and no source has it |

## Left out

- The connectors' requests, HTML and PDF extraction, OCR, the browser sidecar: input and output of foreign services.
- Ranking, filters, eligibility rules, citations, pagination, configuration: mostly single branches.
- Database and queue internals: a row write, a claim transaction and a script run are atomic steps.
- A commit of `SetDoneFrozen` that succeeds at the server but reports an error: the worker would then write failed over done; the model's stamp step succeeds or fails as seen by the worker.
- Clock skew between workers, and time passing between reading the clock and the row lock of a claim.
- Surrogate pairs in \u escapes: the decoded codes are compared before pairs are joined.
- The fields of a job that never decide a branch: substage, labels, messages, hit counts, results, error text.
- Explicit source lists of `IngestQuery` and its branch for unregistered keys: the worker never passes a list.
- The data of images: the registry keeps each image by the size it decodes to.
- Colours of rotated and resized pixels (their conversion to premultiplied alpha), the pixel loop of `resizeImage`, and image encoding beyond its refusal of empty images.
- Rate limiting when the store cannot be reached (all requests pass), and the choice of the client's address.
- Non-numeric and fractional positions in an OpenAlex index: the model starts from integer positions.
- Jitter of retry delays, delays between agent turns, and the contents of the agent's messages.
- ReconstructAbstract: the order of words at equal positions is any sorted one, as the library sort is not stable.
