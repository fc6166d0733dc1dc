# Pharma-Intel AI news pipeline: a Dafny model

Pharma-Intel AI is a browser application for market intelligence on biosimilars. Its core:

- It loads a feed of raw news articles.
- It has a hosted language model summarise, categorise and score each article against a watch-list of companies and keywords.
- It merges each analysis into its article, marks the record `Processed`, and sorts the feed by relevance, highest first.
- Around that pipeline sit the handlers the user drives:
  - archiving and reading out articles;
  - maintaining the two watch-lists;
  - an executive briefing over the active articles (not archived, relevance above 3), with a downloadable text report;
  - a downloadable text export of the whole feed;
  - a streaming chat panel;
  - a grounded search panel that lists its web or maps sources.

This project models that core as pure functions over immutable datatypes. The few operations that run as a sequence of steps are methods: the pipeline (`Processing.AnalyzeEach` holds its loop, and `Processing.ProcessNewsFeed` wraps it), the processing handler, and the chat submit (`Chatbot.HandleSubmit`, whose loop folds the streamed chunks).

How calls and parameters are modelled:

- Every call to the language model is a function parameter (`api`), returning `Ok(value)` or `Err(thrown)`.
- A thrown value is either an `Error` with a message or some other value.
- `JSON.parse` of the analysis reply is a parameter `parse` returning `Some(analysis)` or `None`.
- The clock and the locale-formatted date are parameters too.

Modules follow the source files:

| module | file | models |
|---|---|---|
| `Basics` | `basics.dfy` | `Option`, `Result`, thrown values |
| `Text` | `text.dfy` | the string operations the code relies on (details below) |
| `Types` | `types.dfy` | the records of `types.ts` |
| `Gemini` | `gemini.dfy` | the pure parts of `services/geminiService.ts` |
| `RelevanceSort` | `relevance_sort.dfy` | the stable descending sort by `relevanceScore` |
| `Processing` | `processing.dfy` | `services/processingService.ts` |
| `Watchlist` | `watchlist.dfy` | the watch-list handlers of `App.tsx` and `components/ConfigurationDashboard.tsx` |
| `App` | `app.dfy` | archive, speak and processing in `App.tsx` |
| `PdfReport` | `pdf_report.dfy` | `services/pdfService.ts` |
| `ReportPreview` | `report_preview.dfy` | `components/ReportPreview.tsx` |
| `NewsDashboard` | `news_dashboard.dfy` | `components/NewsDashboard.tsx` |
| `Chatbot` | `chatbot.dfy` | `components/Chatbot.tsx` |
| `GroundingSearch` | `grounding_search.dfy` | `components/GroundingSearch.tsx` |

The string operations in `Text` are:

- `trim` with the ECMAScript white-space set;
- ASCII `toLowerCase`;
- `join`, `substring(0, n)` and `padStart`;
- decimal rendering of numbers.

Two behaviours of the code that a reader might expect to be otherwise:

- **Failed analyses.** `summarizeAndCategorizeArticle` never rejects (services/geminiService.ts:71-80). It returns a fixed fallback record with score 0 instead. So the pipeline's per-article `catch` (services/processingService.ts:96-98) never fires, and no article is dropped. That `catch` is still modelled over an analyser that may fail (`Processing.CollectedSkipsFailure`). With the real analyser every article is kept (`Processing.GeminiKeepsEveryArticle`).
- **Removing an entry.** `removeFromWatchlist` filters out every exactly-equal entry (App.tsx:77). `Watchlist.RemoveFromWatchlist` models the filter. `Watchlist.RemoveUniqueEntry` shows that exactly one entry goes when the list has no case-insensitive duplicates.

## Model

| member | source | states |
|---|---|---|
| Text.Trim | services/geminiService.ts:69 | the result has no leading or trailing white space, is no longer than the input, and is empty exactly when the input is all white space |
| Text.TrimPadded | components/NewsDashboard.tsx:38-47 | trimming text that is white space, then a block with non-white ends, then white space, gives back exactly the block |
| Text.TrimIdempotent | components/ConfigurationDashboard.tsx:18-19 | trimming twice is trimming once |
| Text.Lower | App.tsx:76 | ASCII lower-casing keeps the length, leaves no upper-case letter, changes only upper-case letters, and maps each upper-case letter to its lower-case partner 32 code points above |
| Text.LowerIdempotent | App.tsx:76 | lower-casing twice is lower-casing once |
| Text.SplitJoin | services/geminiService.ts:25 | joining a non-empty list with a separator whose first character occurs in no item, then splitting on it, gives back the list |
| Text.BracketListRoundTrip | services/geminiService.ts:25 | for a non-empty list whose entries contain no comma, the bracketed `", "`-joined list embedded in the prompt reads back to the same items in the same order |
| Text.BracketListAmbiguous | services/geminiService.ts:25 | without those conditions the rendering is ambiguous: `[]` and `[""]` both render as `[]`, and `["Co., Ltd."]` renders like `["Co.", "Ltd."]` |
| Text.Prefix | services/geminiService.ts:30 | `substring(0, n)` is a prefix of at most n characters; it is the whole string when short, and exactly n characters when long |
| Text.ParseNatToString | services/pdfService.ts:21 | the decimal rendering of a number reads back as that number |
| Text.IntToString | services/pdfService.ts:23 | a rendered integer starts with a minus sign exactly when it is negative, and the digits after the optional sign read back as its magnitude |
| Text.PadStart | components/NewsDashboard.tsx:34 | `padStart` yields max(width, length) characters that end with the original string, preceded only by the fill character |
| Text.TwoDigitsRoundTrip | components/NewsDashboard.tsx:34 | a number below 100, padded to two digits, is exactly two digits wide and reads back as the same number |
| Gemini.AnalysisPromptFor | services/geminiService.ts:24-31 | the prompt carries the title and at most the first 4000 characters of the content (all of it when shorter, exactly 4000 when longer) |
| Gemini.PromptListsReadBack | services/geminiService.ts:25 | when both watch-lists are non-empty and no entry contains a comma, the company and keyword lists in the prompt read back as the watch-lists, in order |
| Gemini.PromptListsAmbiguous | services/geminiService.ts:25 | an empty company list and the list `[""]` give the same prompt, and so do an entry containing `", "` and the two entries around it |
| Gemini.SummarizeAndCategorizeArticle | services/geminiService.ts:17-82 | the result is either the fixed fallback or the parse of the trimmed reply; a rejected call gives the fallback, and a successful parse gives exactly the parsed value |
| Gemini.ArticlesTextShape | services/geminiService.ts:91-93 | the report prompt lists articles numbered from 1 in input order as `k. title\nSummary: summary`, separated by one blank line |
| Gemini.TranscribeAudio | services/geminiService.ts:177-199 | transcription never rejects: a reply passes through, an `Error` gives `Transcription failed: ` followed by its message, and anything else gives the fixed unknown-error text |
| Gemini.ChunksOf | services/geminiService.ts:218 | the chunks are empty unless the first candidate carries grounding chunks, and then they are exactly those |
| Gemini.GenerateReportSummary | services/geminiService.ts:89-112 | one call is made with the numbered article list; its reply text is returned unchanged and a rejection propagates its thrown value |
| Gemini.GetGroundedResponse | services/geminiService.ts:208-223 | a rejected call propagates its thrown value; otherwise the text is the response's, and the chunks are exactly the first candidate's grounding chunks when the response carries them, and empty otherwise |
| RelevanceSort.Insert | services/processingService.ts:104 | inserting into a non-increasing list keeps it non-increasing and adds exactly that record |
| RelevanceSort.SortByRelevance | services/processingService.ts:104 | the result is a permutation of the input and is non-increasing in `relevanceScore` |
| RelevanceSort.SortIsStable | services/processingService.ts:104 | records with equal scores keep their input order |
| RelevanceSort.StableSortIsSortByRelevance | services/processingService.ts:104 | every stable, non-increasing permutation of the input equals this sort, so any conforming engine sort gives the same output |
| RelevanceSort.SortedStableUnique | services/processingService.ts:104 | two non-increasing lists with the same per-score order are equal |
| Processing.Merge | services/processingService.ts:91-95 | the record keeps the article's id, title, link, content and company, takes every analysis field, and is marked `Processed` |
| Processing.MergeObjects | services/processingService.ts:91-95 | the merged object has the keys of both plus `status`; `status` is `Processed`, analysis fields override article fields, and other article fields are kept |
| Processing.MergeIsSpread | services/processingService.ts:91-95 | the typed merged record is exactly the object spread of article, analysis and status |
| Processing.Progress | services/processingService.ts:74 | the progress before article i lies in 0..100 and is `100*i/N` rounded half up |
| Processing.ProgressMonotone | services/processingService.ts:72-78 | progress never decreases with i; it is 0 at the first article and would be 100 at i = N |
| Processing.StatusTrace | services/processingService.ts:70-101 | the run reports the start line at 0, then for each article i its `Analyzing article i+1 of N` line, then the completion line at 100 |
| Processing.StatusTraceShape | services/processingService.ts:70-101 | exactly N+2 status updates are emitted; the first is at 0 and the last at 100, all lie in 0..100, and they never decrease |
| Processing.Collected | services/processingService.ts:72-99 | at most one record per article is collected, each marked `Processed` |
| Processing.AnalyzeEach | services/processingService.ts:70-99 | the loop emits the start line and then one progress line per article, and pushes exactly the collected records |
| Processing.ProcessNewsFeed | services/processingService.ts:60-105 | the loop emits the status trace and returns the collected records sorted by relevance |
| Processing.CollectedAppend | services/processingService.ts:72-99 | collecting a concatenation is collecting each part; each article is handled independently of the others |
| Processing.CollectedWhenAllResolve | services/processingService.ts:72-99 | when every analysis resolves there is exactly one record per article, in input order, each the merge of article and analysis |
| Processing.CollectedSkipsFailure | services/processingService.ts:83-98 | a failing analysis contributes nothing; the articles before and after it are collected as usual |
| Processing.CollectedFromResolved | services/processingService.ts:91-95 | every collected record comes from an article whose analysis resolved |
| Processing.FailedArticleAbsent | services/processingService.ts:96-98 | with distinct ids, an article whose analysis fails is absent from the output |
| Processing.OutputOrder | services/processingService.ts:104 | the output is a permutation of the collected records, non-increasing in score, with equal scores in processing order |
| Processing.GeminiKeepsEveryArticle | services/geminiService.ts:71-80 | with the real analyser, which never rejects, the output has exactly N records, one per input article |
| Processing.GeminiAnalyzer | services/processingService.ts:83-88 | the analyser the pipeline calls never rejects, whatever the article and watch-lists |
| Watchlist.FindIgnoringCase | App.tsx:76 | the search finds an entry exactly when some entry equals the value ignoring case, and what it finds is such an entry |
| Watchlist.AddAsWritten | App.tsx:76 | as written, add either leaves the list or appends the value, and it always appends when nothing matches |
| Watchlist.AddAsWrittenDuplicatesEmpty | App.tsx:76 | as written, adding `""` to `[""]` appends a second `""`, which breaks the no-duplicates invariant |
| Watchlist.AddToWatchlist | App.tsx:76 | a value already present ignoring case leaves the list unchanged; otherwise it is appended at the end; afterwards it is present |
| Watchlist.AddAsWrittenAgrees | App.tsx:76 | for any non-empty value the as-written add and the corrected add coincide |
| Watchlist.AddPreservesNoCaseDuplicates | App.tsx:76 | add keeps the list free of entries equal ignoring case |
| Watchlist.AddIdempotent | App.tsx:76 | adding the same value twice is adding it once |
| Watchlist.RemoveFromWatchlist | App.tsx:77 | remove drops every entry exactly equal to the value and keeps all others |
| Watchlist.RemoveAppend | App.tsx:77 | remove works entry by entry, so the relative order of the kept entries is preserved |
| Watchlist.RemoveAbsent | App.tsx:77 | removing an absent value leaves the list unchanged |
| Watchlist.RemoveUndoesAdd | App.tsx:76-77 | removing a value just added to a list that did not contain it restores the list |
| Watchlist.RemoveUniqueEntry | App.tsx:77 | in a list without case-insensitive duplicates, removing a present entry shortens the list by exactly one |
| Watchlist.RemovePreservesNoCaseDuplicates | App.tsx:77 | remove keeps the list free of entries equal ignoring case |
| Watchlist.HandleAdd | components/ConfigurationDashboard.tsx:16-22 | a value is forwarded exactly when the input is not all white space; the value is the trimmed input; the field is reset after forwarding and left unchanged otherwise |
| Watchlist.SubmitAddPreservesWellFormed | components/ConfigurationDashboard.tsx:16-22 | submitting through the form keeps the list free of duplicates and of untrimmed or empty entries |
| Watchlist.ClickRemove | components/ConfigurationDashboard.tsx:41 | the remove control forwards the displayed item: every copy of it is gone, the list is shorter, and every other entry keeps its multiplicity |
| Watchlist.RemovePreservesWellFormed | components/ConfigurationDashboard.tsx:41 | removing keeps the list well formed |
| Watchlist.Add | App.tsx:76-78 | adding to one watch-list applies the corrected add (`AddToWatchlist`) to that list and leaves the other untouched; by `Watchlist.AddAsWrittenAgrees` this is the code as written for every non-empty value, which is every value the form forwards |
| Watchlist.Remove | App.tsx:77-79 | removing from one watch-list applies remove to that list and leaves the other untouched |
| App.Archive | App.tsx:63 | archive keeps length and order, changes only the status, and an article ends archived exactly when it already was or has the id |
| App.ArchiveIdempotent | App.tsx:63 | archiving twice is archiving once, and an id no article has changes nothing |
| App.FindById | App.tsx:65 | the search finds nothing exactly when no article has the id; otherwise it finds the first such article |
| App.HandleDashboardAction | App.tsx:61-73 | speak never changes the list and speaks exactly when the first article with the id has a non-empty summary, speaking that summary; archive speaks nothing |
| App.HandleProcessNews | App.tsx:47-59 | the list is cleared before the run; the pipeline's status updates then appear in order, from the start line to the completion line; the list is replaced by the pipeline's sorted output at the end; processing is on until the last step; the watch-lists are untouched |
| PdfReport.ReportOpensWithSummary | services/pdfService.ts:6-16 | the report opens with the title header and then the executive summary verbatim |
| PdfReport.GeneratePdfReport | services/pdfService.ts:5-33 | the report is the header followed by the rendered sections of the numbered active articles, in order |
| PdfReport.SectionFraming | services/pdfService.ts:20-28 | a section opens with its number, then carries the title, category (subcategory), `score/10`, source company and link lines, and closes with the article's summary and a rule |
| PdfReport.Entries | services/pdfService.ts:18-29 | every section is for an active article, carrying that article's position in the input plus one |
| PdfReport.EntriesIncreasing | services/pdfService.ts:18-21 | section numbers strictly increase, so sections follow input order |
| PdfReport.SectionsRenderEntries | services/pdfService.ts:18-30 | the report body is exactly the sections of those numbered articles, in order |
| PdfReport.EntriesOfActiveList | services/pdfService.ts:21 | on a list of active articles the sections are numbered contiguously from the start, one per article |
| ReportPreview.ActiveArticles | components/ReportPreview.tsx:12 | an article is active exactly when it is not archived and scores above 3 |
| ReportPreview.ActiveAppend | components/ReportPreview.tsx:12 | the filter works article by article and keeps input order |
| ReportPreview.EntriesAreActiveArticles | services/pdfService.ts:18-19 | the report emits exactly one section per active article, in input order, and nothing for the others |
| ReportPreview.FallbackNeverActive | services/geminiService.ts:71-80 | an article analysed with the fallback is never in the briefing |
| ReportPreview.ArchiveLeavesActive | components/ReportPreview.tsx:12 | after archiving an id, no active article has that id, and every other active article stays active |
| ReportPreview.ArticleDataOf | components/ReportPreview.tsx:18 | the summary request holds the title and summary of each active article, in order |
| ReportPreview.SummaryEffect | components/ReportPreview.tsx:14-31 | with no active article the summary is cleared and no call is made; otherwise loading starts with the summary cleared, and the summary becomes the reply or the fixed fallback text as loading ends |
| ReportPreview.BeforeFirstT | components/ReportPreview.tsx:40 | `split('T')[0]` is the prefix of the string that contains no `T` and stops at the first `T`, or the whole string when it has none |
| ReportPreview.BeforeFirstTOfTimestamp | components/ReportPreview.tsx:40 | for an ISO timestamp `<date>T<time>` whose date has no `T`, the split yields exactly the date |
| ReportPreview.BriefingFilenameDate | components/ReportPreview.tsx:40 | the briefing is named `Pharma-Intel-Briefing-<date>.pdf` after the date part of the ISO timestamp |
| ReportPreview.HandleDownload | components/ReportPreview.tsx:33-40 | download does nothing when the summary is empty or nothing is active; otherwise the file holds the report over the active articles and is named after the ISO date |
| ReportPreview.DownloadNumbersContiguously | services/pdfService.ts:21 | the downloaded briefing numbers its sections 1..k, one per active article in order |
| NewsDashboard.CategoryColor | components/NewsDashboard.tsx:11-20 | a category is shown gray exactly when it is not one of the five named categories |
| NewsDashboard.CategoryColorsDistinct | components/NewsDashboard.tsx:11-20 | the five named categories have five different colours |
| NewsDashboard.RelevanceColor | components/NewsDashboard.tsx:22-26 | red exactly above 7, yellow exactly for 5..7, green exactly for 4 and below |
| NewsDashboard.RelevanceColorMonotone | components/NewsDashboard.tsx:22-26 | a higher score never gets a calmer colour |
| NewsDashboard.FallbackColours | components/NewsDashboard.tsx:11-26 | an article analysed with the fallback is shown with a gray badge and a green dot |
| NewsDashboard.FeedTemplateTrims | components/NewsDashboard.tsx:38-47 | trimming an article's template removes only the padding and keeps the whole framed block |
| NewsDashboard.FeedContent | components/NewsDashboard.tsx:37-48 | an empty feed gives empty content; otherwise the content opens with the first article's framed block |
| NewsDashboard.FeedContentIsBlocks | components/NewsDashboard.tsx:37-48 | the export is every article's framed block, archived ones included, joined by blank lines; trimming the templates loses nothing |
| NewsDashboard.FeedContentShape | components/NewsDashboard.tsx:37-48 | one article gives its block; each further article adds a blank line and its block, in list order |
| NewsDashboard.TimeTailRoundTrip | components/NewsDashboard.tsx:34 | month (shifted to one-based), day, hour and minute are each two digits wide and read back unchanged |
| NewsDashboard.FeedFilename | components/NewsDashboard.tsx:34-35 | the name starts with `Pharma-Intel-News-Feed_`, ends with `.txt`, and has a non-empty stamp between |
| NewsDashboard.FeedFilenameRoundTrip | components/NewsDashboard.tsx:34-35 | the `Pharma-Intel-News-Feed_YYYY-MM-DD_HH-mm.txt` name reads back as the clock it was stamped with |
| NewsDashboard.DownloadFeed | components/NewsDashboard.tsx:30-48 | nothing is downloaded exactly when the feed is empty; otherwise the file holds the feed content and its name reads back as the current time |
| Chatbot.HandleSubmit | components/Chatbot.tsx:20-48 | a blank input or a submit while loading changes nothing; otherwise one user message with the untrimmed input is appended and the input cleared; the trailing model message grows chunk by chunk to the concatenation; a failure appends the apology and keeps everything before it; loading ends false |
| Chatbot.StreamingOnlyExtendsReply | components/Chatbot.tsx:36-40 | each streamed update keeps every earlier message and only extends the trailing reply's text |
| GroundingSearch.ErrorText | components/GroundingSearch.tsx:26 | an `Error` shows its message; anything else shows the fixed unknown-error text |
| GroundingSearch.HandleSubmit | components/GroundingSearch.tsx:13-30 | a blank query sets the validation message and makes no call; otherwise result and error are cleared and loading set before the call; the outcome is the grounded result or the error text, and loading ends false |
| GroundingSearch.FailureShowsError | components/GroundingSearch.tsx:25-26 | a failed search shows an empty error exactly when an `Error` with an empty message was thrown |
| GroundingSearch.SourceOf | components/GroundingSearch.tsx:79 | a chunk's source is its web source if present, else its maps source |
| GroundingSearch.DisplayedSources | components/GroundingSearch.tsx:78-84 | a source is listed exactly when some chunk selects it, and there are never more entries than chunks |
| GroundingSearch.DisplayedSourcesAppend | components/GroundingSearch.tsx:78-84 | the list is built chunk by chunk and keeps chunk order |
| GroundingSearch.DisplayedSourcesSingle | components/GroundingSearch.tsx:79-84 | one chunk lists its web source, else its maps source, else nothing |

## Left out

- **The language-model client.** Model names, prompt wording beyond the embedded fields, response schemas, and the chat session object are foreign library calls. Each call is a parameter returning a result or a thrown value.
- **Analysis parsing.** `JSON.parse` is a parameter: `parse` returns an analysis, or nothing where `JSON.parse` would throw. A reply whose text is missing counts as a rejection. The code does not check the parsed value's shape (services/geminiService.ts:69-70), so a reply that parses to an object with missing, extra or ill-typed fields is spread into the article as it is. Such replies are not modelled: every parse that succeeds is a well-typed `Analysis`.
- **Latency.** `simulateApiLatency` and its random delay only affect timing.
- **Browser I/O.** This covers `localStorage` persistence of the watch-lists, `speechSynthesis`, and Blob, object-URL and DOM download plumbing. Speak yields the text it would say. Downloads yield the file name and content.
- **Dates.** The report's locale date and the current ISO timestamp (`new Date().toISOString()`) are text parameters; the briefing's file name is built from the latter. The feed's clock is a `Clock` record with a non-negative year.
- **The mock news feed.** It is the pipeline's input parameter.
- **React scheduling.** Stale closures and interleaving of concurrent handlers are not modelled; every handler runs as one sequential step. The processing handler's own `catch` branch is unreachable, since the pipeline never rejects, and is not modelled.
- **Other components.** The remaining intelligence tools have only an empty-input guard around a single call: the transcriber's recording, the image and content analysers, and the complex-query form. Purely presentational components have no logic to state.
- **Lower-casing.** `toLowerCase` is modelled on ASCII letters only, not full Unicode case mapping.
- **String length.** Strings are sequences of Unicode scalar values, while JavaScript's `length` and `substring` count UTF-16 code units. For content with characters outside the Basic Multilingual Plane, the 4000-unit cut of `substring(0, 4000)` (services/geminiService.ts:30) falls at a different place, and can split a surrogate pair. `Text.Prefix` and `Gemini.AnalysisPromptFor` state the cut in scalar values.
- **Row controls.** The speak and archive buttons are disabled exactly for archived records (components/NewsDashboard.tsx:100-103). That is the status `App.Archive` sets, so it has no member of its own.
- **Scores.** `relevanceScore` and `confidenceScore` are integers.
- Processing.Progress: rounds the exact rational `100*i/N` half up. The source rounds the floating-point value `(i/N)*100`, which can differ by one where that product lands just beside a .5 boundary.
- Chatbot.HandleSubmit: a chunk's text is a string. A chunk whose text is missing, which JavaScript would concatenate as `undefined`, is not modelled.
- Text.BracketListRoundTrip: read-back holds only for a non-empty list whose entries contain no comma. The code accepts both an emptied list and entries with commas, and for those the embedded text is ambiguous (`Text.BracketListAmbiguous`).
- Gemini.PromptListsReadBack: the same two conditions apply to the prompt's watch-lists (`Gemini.PromptListsAmbiguous`).
- ReportPreview.ArticleDataOf: summaries are always strings here, so the `|| ''` default is the identity.

## Findings

| source | as written | input that shows it | evidently intended | confidence | as-written member | corrected member |
|---|---|---|---|---|---|---|
| App.tsx:76 | `!list.find(c => sameIgnoringCase(c, v)) && append` tests the truthiness of the found entry, so a matching entry that is the empty string does not block the append | list `[""]`, value `""` gives `["", ""]`, two entries equal ignoring case | append only when no entry matches ignoring case (`some` rather than `find`) | not executed; the form never forwards an empty value, so it only shows through other callers of the handler | Watchlist.AddAsWrittenDuplicatesEmpty | Watchlist.AddToWatchlist |
