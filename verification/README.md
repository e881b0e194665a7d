# AI-powered support email assistant: a verified model

The application loads a CSV export of customer emails. It keeps those that look like
support requests. It classifies each one and extracts information from it, then drafts
a templated reply. A dashboard then lists, filters and counts the results. This
project models the decision logic of that pipeline in Dafny and proves what it
promises:

- `EmailProcessor` (`email_processor.dfy`) is the rule engine. It covers:
  - the support-keyword gate;
  - sentiment from counting words in two fixed lists;
  - priority from urgent keywords;
  - first-match categorisation of the subject;
  - requirement windows, sentiment cues and the word count;
  - the reply assembled from fixed sentences;
  - the assembly of one processed email record.
- `CsvEmailLoader` (`csv_email_loader.dfy`) covers:
  - the quote-toggling field splitter `parseCSVLine`;
  - the record builder of `loadEmailsFromCSV`. It keys each record by the trimmed headers, fills it with the trimmed fields (or `""` when the row is short) and gives it the synthetic id `email_<n>`.
- `App` (`app.dfy`) is the list logic of the shell:
  - the review order (urgent first, then newest first), as an in-place insertion sort on an array;
  - the search and drop-down filter;
  - the dashboard counts;
  - the by-id status change.

  The stored collection is the field of an `Inbox` object.
- `EmailTypes` (`email_types.dfy`) holds the record shapes. `Seqs` (`seqs.dfy`) and `Text` (`text.dfy`) are the JavaScript primitives the code relies on:
  - `filter` and `some`;
  - ASCII `toLowerCase`;
  - `includes`, `indexOf` and `trim`;
  - `split` on one character;
  - decimal rendering of numbers.

  `Text.Join` is not a primitive the code calls. It is there only to state the round trip of the CSV line splitter.

Timestamps are integers in milliseconds. Lower-casing is ASCII-only, so it never
changes a string's length.

## Model

| member | source | states |
|---|---|---|
| `EmailProcessor.IsSupportEmail` | src/services/emailProcessor.ts:10-15 | an email passes the gate iff one of the seven support keywords occurs in its lower-cased subject or lower-cased body |
| `EmailProcessor.FilterSupportEmails` | src/services/emailProcessor.ts:9-16 | the result is a subsequence of the input (order kept), every kept email passes the gate, and every input email that passes the gate is kept. Each passing email is kept as many times as it occurs, each failing one not at all |
| `EmailProcessor.AnalyzeSentiment` | src/services/emailProcessor.ts:18-26 | negative iff more distinct negative words than positive ones are present, positive iff more positive ones, neutral iff the counts tie (0 against 0 included) |
| `EmailProcessor.HitCounts` | src/services/emailProcessor.ts:6-7 | each count is the number of distinct table words present in the lower-cased text, at most 7 positive and at most 8 negative |
| `EmailProcessor.PresentCountsDistinct` | src/services/emailProcessor.ts:20-21 | filtering a repetition-free word table by presence gives as many words as the set of present table words has, never more than the table |
| `EmailProcessor.TablesDistinct` | src/services/emailProcessor.ts:6-7 | neither sentiment word table repeats a word |
| `EmailProcessor.DeterminePriority` | src/services/emailProcessor.ts:28-31 | urgent iff some urgent keyword occurs in the lower-cased text, normal otherwise |
| `EmailProcessor.Categorize` | src/services/emailProcessor.ts:140-148 | the category is one of the six names. Each rule (billing/payment, login/access, integration/api, pricing, refund) wins iff it matches the lower-cased subject and no earlier rule does. Otherwise it is "General Support" |
| `EmailProcessor.CombinedText` | src/services/emailProcessor.ts:34 | the analysed text is subject and body joined by one space, so its length is their sum plus one |
| `EmailProcessor.RequirementWindow` | src/services/emailProcessor.ts:49-51 | a requirement is at most 100 characters long and neither begins nor ends with whitespace |
| `EmailProcessor.WindowEnd` | src/services/emailProcessor.ts:51 | the window ends 100 characters after its start, or earlier at the end of the text |
| `EmailProcessor.Requirements` | src/services/emailProcessor.ts:46-52 | one requirement per requirement indicator present in the lower-cased text |
| `EmailProcessor.Windows` | src/services/emailProcessor.ts:49-52 | one window per indicator given |
| `EmailProcessor.IndicatorsHaveLetterEnds` | src/services/emailProcessor.ts:46 | every requirement indicator is non-empty, no longer than the window, and begins and ends with a lower-case letter |
| `EmailProcessor.WindowStartsWithIndicator` | src/services/emailProcessor.ts:50-51 | the trimmed window, lower-cased, begins with its indicator, because trimming cannot cut into a word that starts and ends with a letter |
| `EmailProcessor.RequirementsShape` | src/services/emailProcessor.ts:46-52 | there are at most six requirements, each from an indicator present, in indicator-table order. Each is at most 100 characters and, lower-cased, begins with its indicator |
| `EmailProcessor.WindowIsVerbatim` | src/services/emailProcessor.ts:50-51 | for an indicator beginning with a letter, the window is the original text standing at the first index where the indicator occurs in the lower-cased text. It is not empty, ends in a non-whitespace character inside the 100-character window, and only whitespace follows it up to the end of the window |
| `EmailProcessor.TrimmedStretch` | src/services/emailProcessor.ts:51 | trimming a stretch that begins with a non-whitespace character keeps its start: the result is not empty, stands verbatim there, ends in a non-whitespace character and is followed by whitespace only up to the stretch's end |
| `EmailProcessor.RequirementIsUnique` | src/services/emailProcessor.ts:50-51 | at most one string is the requirement for a given indicator and text, so the description above fixes each window exactly |
| `EmailProcessor.RequirementsAreVerbatim` | src/services/emailProcessor.ts:46-52 | the i-th requirement is the original text cut at the first occurrence (in the lower-cased text) of the i-th indicator present, with only trailing whitespace inside the window dropped. Each requirement is not empty and ends in a non-whitespace character |
| `EmailProcessor.ExtractInformation` | src/services/emailProcessor.ts:33-70 | contact details are the phone matches followed by a subsequence of the address matches that holds every occurrence of each address other than the sender and no occurrence of the sender. The sentiment cues number the distinct positive plus negative hits (at most 15). The word count is the number of spaces plus one (at least 2). There are no attachments. The requirements are those cut from the combined subject and body |
| `EmailProcessor.CountSpaceInCombined` | src/services/emailProcessor.ts:65 | the combined text holds at least one space, so `split(' ')` yields at least two pieces |
| `EmailProcessor.IndicatorsAgreeWithSentiment` | src/services/emailProcessor.ts:55-58 | the cues are the positive hits in table order followed by the negative hits in table order, and the sentiment label is negative or positive exactly when the negative or positive half is longer |
| `EmailProcessor.ResponseParts` | src/services/emailProcessor.ts:72-113 | the reply has three sentences, plus one if urgent and one if negative. It starts with the sentiment's greeting and ends with the sign-off. The urgency sentence is present iff urgent and comes second. The empathy sentence is present iff negative and then comes just before the sign-off; otherwise the subject sentence does. The subject sentence is always present |
| `EmailProcessor.GenerateAIResponse` | src/services/emailProcessor.ts:72-113 | the reply built by successive appends is the concatenation of those sentences. It starts with the greeting and ends with the sign-off, with the urgency sentence right after the greeting when urgent |
| `EmailProcessor.ResponseShape` | src/services/emailProcessor.ts:75-110 | where the greeting, the urgency sentence and the sign-off sit in the concatenated reply |
| `EmailProcessor.ConcatShape` | src/services/emailProcessor.ts:75-110 | appending sentences one after another puts the first at the start, the second right after it and the last at the end |
| `EmailProcessor.ConcatSnoc` | src/services/emailProcessor.ts:79-110 | each `+=` extends the concatenation by one sentence |
| `EmailProcessor.ConcatFront` | src/services/emailProcessor.ts:75-110 | the concatenation begins with its first sentence followed by the rest |
| `EmailProcessor.ProcessEmail` | src/services/emailProcessor.ts:115-138 | the record keeps the raw id, or the fallback when it is empty. It copies sender, subject, body and date. Its sentiment, priority, category and extraction come from the combined text and subject. It is pending and marked generated, with the reply of its own sentiment, priority and subject attached |
| `EmailProcessor.ProcessedReplyShape` | src/services/emailProcessor.ts:117-135 | the attached reply greets according to the sentiment of the email's text. The urgency sentence follows the greeting when the text holds an urgent keyword, and the reply ends with the sign-off |
| `EmailProcessor.BillingBeatsTechnical` | src/services/emailProcessor.ts:142-144 | any subject that mentions billing (in any case) is filed under "Billing", whatever else it mentions, an API included |
| `EmailProcessor.UrgentWordMakesUrgent` | src/services/emailProcessor.ts:5 | the word "urgent" anywhere in the text, in any case, makes the email urgent |
| `EmailProcessor.TopicAndCategoryCanDisagree` | src/services/emailProcessor.ts:93-96 | "billing access" is categorised "Billing" while the reply talks about a login problem, because the reply checks login/access before billing |
| `CsvEmailLoader.FieldsFrom` | src/services/csvEmailLoader.ts:36-50 | splitting from either quote mode always yields at least one field |
| `CsvEmailLoader.ParseCsvLine` | src/services/csvEmailLoader.ts:31-51 | the loop returns the reference split of the line. That is one field more than the commas preceded by an even number of quotes. No field contains a double quote, and the fields joined with commas give the line without its quotes |
| `CsvEmailLoader.FieldsHaveNoQuotes` | src/services/csvEmailLoader.ts:39-40 | every double quote only toggles the mode and never reaches a field |
| `CsvEmailLoader.JoinFields` | src/services/csvEmailLoader.ts:36-50 | round trip: joining the fields with "," restores the line minus its double quotes, so a comma inside quotes stays in its field |
| `CsvEmailLoader.UnquotedLineIsSplit` | src/services/csvEmailLoader.ts:41-46 | without double quotes every comma separates, exactly as `split(',')` |
| `CsvEmailLoader.PlainLineIsOneField` | src/services/csvEmailLoader.ts:36-50 | a line with no quotes and no commas is one field equal to the line |
| `CsvEmailLoader.QuotedCommaExample` | src/services/csvEmailLoader.ts:41-46 | `x,"a,b"` has the two fields `x` and `a,b` |
| `CsvEmailLoader.EmailId` | src/services/csvEmailLoader.ts:20 | the id is `email_` followed by decimal digits that read back as the line number |
| `CsvEmailLoader.EmailIdsDistinct` | src/services/csvEmailLoader.ts:20 | different line numbers give different ids |
| `Text.TrimCharacterized` | src/services/csvEmailLoader.ts:17 | `trim` leaves a stretch of the string that has only whitespace around it and none at its own ends |
| `Text.TrimIsUnique` | src/services/csvEmailLoader.ts:17 | only one string is such a stretch, so that description fixes the result of `trim` |
| `CsvEmailLoader.Cell` | src/services/csvEmailLoader.ts:17 | the value is the field at the same position with exactly its leading and trailing whitespace removed: it stands in the field with only whitespace around it and has none at its ends. Past the end of the row it is the empty string |
| `CsvEmailLoader.FillStep` | src/services/csvEmailLoader.ts:16-18 | one `forEach` step adds the header's key and, later keys overriding earlier ones, each key holds the value of its last header so far |
| `CsvEmailLoader.FinishRecord` | src/services/csvEmailLoader.ts:16-20 | after all headers, setting `id` gives a record with every trimmed header plus `id` as keys, the last-wins values and the synthetic id |
| `CsvEmailLoader.BuildRecord` | src/services/csvEmailLoader.ts:14-21 | the filled record, as a map, has exactly the trimmed headers and `id` as keys (a `__proto__` header included; see "Left out"). Each key other than `id` holds the trimmed field under its last header (or ""), and `id` is `email_<n>` |
| `CsvEmailLoader.Lines` | src/services/csvEmailLoader.ts:7 | splitting on newlines yields at least one line, so the header line always exists |
| `CsvEmailLoader.DataLines` | src/services/csvEmailLoader.ts:10-11 | the data lines kept are a subsequence of the lines after the first. They hold every occurrence of each line whose trimmed text is not empty, and no blank line |
| `CsvEmailLoader.LoadEmailsFromCsv` | src/services/csvEmailLoader.ts:7-22 | one record per kept data line. The k-th (from 1) is built from the header line and the parsed fields of that line with id `email_k`, so no two records share an id |
| `App.CompareIsConsistent` | src/App.tsx:36-40 | the comparator is antisymmetric, and the order it induces is total and transitive |
| `App.SortedMeans` | src/App.tsx:36-40 | the list is in review order iff every urgent email precedes every non-urgent one and dates never rise within one urgency class |
| `App.SortForReview` | src/App.tsx:36-40 | the array ends in review order and is a permutation of its initial contents |
| `App.FilterEmails` | src/App.tsx:50-63 | the visible list is a subsequence of the emails. Every kept email matches the search (case-insensitive, in subject, sender or body) and all three selections. Every email left out fails one of them. Each matching email is shown as many times as it occurs in the list |
| `App.NoFilterShowsAll` | src/App.tsx:52-61 | with an empty search and every selection at "all" the whole list is visible |
| `App.ComputeStats` | src/App.tsx:65-88 | the total is the list's length. The recent count is at most the total. Resolved plus pending, the three sentiment counts, and the two priority counts each sum to the total, on the empty list too |
| `App.StatusCountsSum` | src/App.tsx:76-77 | resolved and pending counts sum to the length |
| `App.SentimentCountsSum` | src/App.tsx:78-82 | the three sentiment counts sum to the length |
| `App.PriorityCountsSum` | src/App.tsx:83-86 | the two priority counts sum to the length |
| `App.StatsEmpty` | src/App.tsx:65-88 | an empty list has every count zero |
| `App.StatsAppend` | src/App.tsx:65-88 | one more email adds one to the total and one to exactly its own status, sentiment and priority counters. It adds one to the recent count iff it was sent no earlier than 86400000 ms before now (inclusive). With `App.StatsEmpty` this fixes every count of every list |
| `App.StatusCountAppend` | src/App.tsx:76-77 | one more email raises the count of its own status by one and leaves the other status count |
| `App.SentimentCountAppend` | src/App.tsx:78-82 | one more email raises the count of its own sentiment by one and leaves the others |
| `App.PriorityCountAppend` | src/App.tsx:83-86 | one more email raises the count of its own priority by one and leaves the other |
| `App.StatsIgnoreOrder` | src/App.tsx:65-88 | lists that are permutations of each other have identical statistics, so sorting leaves the dashboard unchanged |
| `App.WithStatus` | src/App.tsx:90-94 | the length and order are kept, and every record differs from the old one at most in its status. Records with the id get the new status and the others are unchanged. With no matching id the list is unchanged |
| `App.WithStatusIdempotent` | src/App.tsx:90-94 | setting the same status twice is setting it once |
| `App.StatusChangeKeepsCounts` | src/App.tsx:90-94 | a status change keeps every sentiment and priority count |
| `App.StatusChangeKeepsBreakdowns` | src/App.tsx:90-94 | a status change keeps the total and the sentiment and priority breakdowns of the dashboard |
| `App.Inbox.constructor` | src/App.tsx:12 | the collection starts empty |
| `App.Inbox.Load` | src/App.tsx:28-48 | the stored emails are a permutation of the processed support emails, in review order |
| `App.Inbox.SetStatus` | src/App.tsx:90-94 | the stored emails become the status-patched old list |
| `App.Inbox.Stats` | src/App.tsx:65-88 | the dashboard total is the number of stored emails |
| `App.Inbox.Visible` | src/App.tsx:50-63 | the visible emails are a subsequence of the stored ones |

## Left out

- Fetching the CSV file is not modelled. Neither is the catch that turns a failed load into an empty list (`src/services/csvEmailLoader.ts:4-5`, 25-28). `LoadEmailsFromCsv` starts from the fetched text.
- The phone and e-mail regular expressions are not modelled. `ExtractInformation` takes their matches as the parameters `phoneMatches` and `addressMatches`.
- `Math.random` is not modelled. The fallback id is a parameter of `ProcessEmail` (and a function of the position in `Inbox.Load`).
- `responseTime` is not modelled, because it is the wall clock (`new Date().toISOString()`). The metadata keeps `wordCount` and `hasAttachments`. The dashboard's `now` is a parameter.
- Parsing `sent_date` text into a date is not modelled, and neither is `new Date(...)` on an invalid string. Dates are integer milliseconds.
- The conversion of a loaded key/value record into the `RawEmail` the processor reads is not modelled. `RawEmail` holds the `id`, `sender`, `subject`, `body` and `sent_date` columns. A missing column (read as `undefined` in the source) is not modelled.
- `BuildRecord`: the record is modelled as a map, not a plain JavaScript object. A header that trims to `__proto__` therefore becomes a key here holding its cell. In the source, `email['__proto__'] = value` goes to the prototype setter, which ignores a string and creates no property. No later step reads that key.
- Unicode case mapping is not modelled: `toLowerCase` is modelled on ASCII letters only.
- React state is not modelled: `useState`, `useMemo`, the loading flag and the modal. The collection is the `emails` field of `Inbox`.
- Rendering is not modelled, including the floating-point percentages of the statistics panel.
- `console` output and the clipboard are not modelled.
- The stability of `Array.prototype.sort` is not modelled. `SortForReview` is specified by its order and permutation property, not by which equal elements stay in place.
- `ExtractInformation`: the word count follows the code, `text.split(' ').length`, not a count of whitespace-separated words. Runs of spaces therefore count empty words.
- `LoadEmailsFromCsv`: the header line is split with a plain `split(',')`, as the code does, not with the quote-aware field splitter.
- `RequirementWindow`: lengths and indices are counted in Unicode code points, not in the UTF-16 code units that JavaScript's `indexOf`, `substring` and `length` use. Text outside the Basic Multilingual Plane therefore gives a longer window than the source cuts, and never a split surrogate pair. The same holds for every other length in the model.
- `RequirementWindow`: the window is cut from the original text at the index found in the lower-cased text. That is exact only because lower-casing here keeps lengths.
