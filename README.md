# eCFR Analyzer: word counts and readability per agency, in Dafny

This project models the core of the eCFR Analyzer. The analyzer resolves each CFR
reference of every federal agency (title, subtitle, chapter, subchapter, part,
section) to its element of the title's XML document, using the ancestry that the
eCFR versioner service returns. It then counts the words of that element's `<P>`
paragraphs, scores its readability, and rolls the figures up per agency.

There are two programs:

- **The batch script** (`scripts/calculate_word_counts.py`):
  - `calculate_word_counts` first deletes every agency's key from the key-value store.
  - It then runs `process_agency` for each agency in turn, with a single worker.
  - `process_agency` measures the agency's references with `process_reference`.
  - It divides the word-weighted score sums by the total word count.
  - It writes the summary under the agency's slug.
  - `extract_from_xml` is the resolver that `process_reference` uses.
- **The dashboard page** (`metrics/agency_metrics.py`):
  - `extract_section_from_xml` is the dashboard's own copy of the resolver. It reports failures as messages and treats an element without children as missing.
  - `get_cfr_section` fetches, then extracts.
  - `format_cfr_reference` is the label of a reference.
  - The page then shows the word count for the selected reference.

Modules, in dependency order:

| module | file | models |
|---|---|---|
| `Wrappers` | `wrappers.dfy` | `Option`, `Result` |
| `Text` | `text.dfy` | Python's argument-less `str.split()` and `str.strip()` |
| `Xml` | `xml.dfy` | a parsed element tree; `find(".//TAG[@TYPE=..][@N=..]")`, the first match in document order among the proper descendants; text; `<P>` paragraphs and `get_text(strip=True)` |
| `Resolver` | `resolver.dfy` | the ancestry-to-hierarchy map and the level-by-level descent that both resolvers share; `extract_from_xml` |
| `Cfr` | `cfr.dfy` | a CFR reference; Python's `str()` of its integer title |
| `AgencyMetrics` | `agency_metrics.dfy` | `extract_section_from_xml`, `get_cfr_section`, `format_cfr_reference`, what the page shows |
| `ReferenceMetrics` | `reference_metrics.dfy` | query parameters of the two fetches; `process_reference` |
| `Aggregation` | `aggregation.dfy` | the title-date lookup; `process_agency`'s reference loop as a method proved against `AgencySummary`; the weighted averages |
| `Batch` | `batch.dfy` | the key-value store as a class with a command log; `process_agency`'s write; `calculate_word_counts` as a method proved against `RunCommands`/`RunOutcome` |

The eCFR services and the readability library are parameters (`Upstream`, `Readability`).
A fetch that fails yields `None`. A readability formula that raises yields `None`.
A Python exception that would end a reference, an agency or the run is an `Abort` value.

In these places the code does something a reader might not expect, and the model follows the code:

- Each agency average divides the weighted score sum by the agency's **total word count**. It does not divide by the words of the references that have that score (`process_agency`, lines 86-94).
- An average is `0.0`, not absent, when the agency has words but no reference has that score (`Aggregation.NoScoreAveragesZero`).
- A failing agency aborts the whole run. Its exception leaves `executor.map`/`list`, so there is no fault isolation across agencies, and agencies after it are neither processed nor written (`Batch.CalculateWordCounts`, `Batch.PersistedSummaries`).
- Each stored reference record holds only the four metric fields. It does not copy the reference's own fields (lines 154-159).

## Model

| member | source | states |
|---|---|---|
| Text.Split | scripts/calculate_word_counts.py:134 | every token that `split()` yields is non-empty and free of whitespace |
| Text.LStrip | scripts/calculate_word_counts.py:130 | the result is a suffix of the input, only leading whitespace removed, and does not start with whitespace |
| Text.RStrip | scripts/calculate_word_counts.py:130 | the result is a prefix of the input, only trailing whitespace removed, and does not end with whitespace |
| Text.SplitAroundSpace | scripts/calculate_word_counts.py:134 | a whitespace character separates the tokens of the two sides: split(a + ws + b) == split(a) + split(b) |
| Text.SplitLStrip | scripts/calculate_word_counts.py:130-134 | leading whitespace does not change `split()` |
| Text.SplitRStrip | scripts/calculate_word_counts.py:130-134 | trailing whitespace does not change `split()` |
| Text.Strip | scripts/calculate_word_counts.py:130 | `strip()` leaves neither end whitespace, and its tokens are those of the input |
| Text.SplitJoin | scripts/calculate_word_counts.py:134 | splitting the space-joined list of whitespace-free words gives the words back |
| Text.TokenCountConcat | scripts/calculate_word_counts.py:130-134 | the token count of a concatenation is the sum of the counts, less one exactly when a word runs across the seam |
| Text.SumTokenCountsAppend | scripts/calculate_word_counts.py:134 | the word total over a list of texts adds over concatenation |
| Text.SumTokenCountsPermutation | scripts/calculate_word_counts.py:134 | the word total does not depend on the order of the paragraphs |
| Xml.Find | scripts/calculate_word_counts.py:169 | `find(".//…")`; `FindIsFirstDescendant` states that it returns the first matching proper descendant in document order, and None exactly when none matches |
| Xml.ElementText | scripts/calculate_word_counts.py:129-134 | the resolved element's whole text, the text whose token count `MeasureScoresOnlyLongTexts` compares with 100 |
| Xml.StrippedText | scripts/calculate_word_counts.py:129-134 | `get_text(strip=True)` of a paragraph; `StrippedTextMergesTokens` states that gluing the stripped pieces never adds tokens |
| Xml.WordCount | scripts/calculate_word_counts.py:129-134 | the summed token count of the `<P>` elements; `WordCountUnfolds`, `ForestParagraphs` and `WordCountWithoutParagraphs` state how it splits over the tree |
| Xml.FirstMatching | scripts/calculate_word_counts.py:169 | None exactly when no element of the sequence matches; otherwise the first match |
| Xml.FindInIsFirstMatching | scripts/calculate_word_counts.py:169-207 | the recursive search over children finds the first match of the document-order descendant list |
| Xml.FindIsFirstDescendant | scripts/calculate_word_counts.py:169-207 | `find(".//…")` returns a matching proper descendant, the first in document order, and None exactly when no descendant matches |
| Xml.StrippedTextMergesTokens | scripts/calculate_word_counts.py:130 | gluing stripped text pieces never yields more tokens than the pieces hold |
| Xml.WithTagEmpty | scripts/calculate_word_counts.py:130 | `find_all` filtering yields nothing exactly when no element has the tag |
| Xml.WithTagAppend | scripts/calculate_word_counts.py:130 | tag filtering distributes over concatenation, keeping document order |
| Xml.WordCountWithoutParagraphs | scripts/calculate_word_counts.py:129-134 | an element with no `<P>` inside has word count 0 |
| Xml.ForestParagraphs | scripts/calculate_word_counts.py:129-134 | the word count over the `<P>` elements of a forest equals the tree-recursive sum over its paragraphs |
| Xml.WordCountUnfolds | scripts/calculate_word_counts.py:129-134 | an element's word count is its own paragraph text's (when it is a `<P>`) plus that of its children |
| Resolver.ExtractFromXml | scripts/calculate_word_counts.py:162-210 | a found element is a proper descendant of the document root; `ExtractedInsideEveryRequestedLevel` states that every requested level matched |
| Resolver.ResolvedBelowRoot | scripts/calculate_word_counts.py:169-210 | whatever a resolution returns lies strictly inside the root, since the title is searched among the root's descendants |
| Resolver.Hierarchy | scripts/calculate_word_counts.py:166 | the type-to-identifier map; `HierarchyKeys` and `HierarchyKeepsLast` state its keys and that the last entry of a type wins |
| Resolver.Descend | scripts/calculate_word_counts.py:168-210 | the level-by-level descent; `DescendStaysInside`, `DescendAppend` and `MissIsFirstFailedLevel` state where it ends and which level a miss names |
| Resolver.Lookup | scripts/calculate_word_counts.py:168-210 | one level's search; `LookupInside` and `LookupMiss` state that it returns a descendant of its scope and how the children check changes a miss |
| Resolver.HierarchyKeys | scripts/calculate_word_counts.py:166 | the hierarchy map has a key exactly for each type mentioned in the ancestry |
| Resolver.HierarchyKeepsLast | scripts/calculate_word_counts.py:166 | a repeated type maps to the identifier of its last entry |
| Resolver.DescendAppend | scripts/calculate_word_counts.py:168-210 | descending through a + b is descending through a, then through b from where a ended, and a miss in a is final |
| Resolver.DescendStaysInside | scripts/calculate_word_counts.py:168-210 | a resolved element is the starting scope or one of its descendants |
| Resolver.StepIsFirstMatch | scripts/calculate_word_counts.py:168-207 | each requested level's element is the first matching descendant of the previous level's element |
| Resolver.ExtractedInsideEveryRequestedLevel | scripts/calculate_word_counts.py:162-210 | on success, every requested level was found with the right tag, TYPE and N, and the result lies within it |
| Resolver.TitleOnlyGivesTitle | scripts/calculate_word_counts.py:169-171 | with only a title in the ancestry, the result is the first matching `DIV1` |
| Resolver.OnlyTitleRequested | scripts/calculate_word_counts.py:169-210 | with no finer level requested, resolution fails exactly when the title is missing, and otherwise yields the title element |
| Resolver.FailureIsFinal | scripts/calculate_word_counts.py:170-201 | once a prefix of the levels misses, the whole resolution returns that same miss |
| Resolver.DescendReadsOnlyItsLevels | scripts/calculate_word_counts.py:174-207 | the descent depends only on the hierarchy entries of the levels it passes |
| Resolver.NotFoundWhateverDeeper | scripts/calculate_word_counts.py:170-201 | a miss at some level gives None whatever the ancestry says about deeper levels |
| Resolver.UnknownTypesIgnored | scripts/calculate_word_counts.py:166-206 | an ancestry entry of a type the resolver never reads, anywhere in the list, does not change the result |
| Resolver.ChildrenCheckOnlyNarrows | metrics/agency_metrics.py:87-126 | when the dashboard's resolver succeeds, the batch resolver succeeds with the same element |
| Resolver.ChildrenCheckMiss | metrics/agency_metrics.py:87-126 | a dashboard miss is a batch miss at the same level, or a matching childless element exists |
| Resolver.LookupInside | scripts/calculate_word_counts.py:169-207 | a level lookup returns a descendant of its scope |
| Resolver.LookupMiss | metrics/agency_metrics.py:88-125 | a lookup that fails with the children check fails without it, or found a childless match |
| Resolver.MissIsFirstFailedLevel | scripts/calculate_word_counts.py:169-201 | a miss names a requested level whose identifier was searched in the scope reached so far and not found |
| Cfr.NatToString | metrics/agency_metrics.py:34 | Python's `str` of a natural number is non-empty decimal digits with no leading zero |
| Cfr.ParseNatToString | metrics/agency_metrics.py:34 | reading the printed digits back gives the number |
| Cfr.IntToStringInjective | metrics/agency_metrics.py:34 | different titles print differently |
| Cfr.SignShows | metrics/agency_metrics.py:34 | the printed integer starts with '-' exactly for a negative number |
| Cfr.IntToStringChars | metrics/agency_metrics.py:34 | a printed integer contains only '-' and digits, so never a comma |
| AgencyMetrics.DescendWithChildren | metrics/agency_metrics.py:87-126 | what the dashboard's resolver returns is the scope or an element with children |
| AgencyMetrics.ExtractSectionFromXml | metrics/agency_metrics.py:78-128 | a success is a descendant of the document root that has children, and it is exactly what `extract_from_xml` returns |
| AgencyMetrics.CheckedResolution | metrics/agency_metrics.py:87-126 | an element the children check lets through lies inside the document, has children, and is what resolution without the check returns |
| AgencyMetrics.GetCfrSection | metrics/agency_metrics.py:131-142 | its outcomes, in order of precedence, are stated by `GetCfrSectionOutcomes` |
| AgencyMetrics.FormatCfrReference | metrics/agency_metrics.py:32-45 | the label's shape is stated by the `Format…` lemmas below: it starts with "Title <n>", the title ends at the first comma, each truthy locator adds one named segment in order |
| AgencyMetrics.ShowReferenceAsWritten | metrics/agency_metrics.py:202-215 | the page as written; `FailureNeverWarns` states that its warning branch is never reached |
| AgencyMetrics.BatchMissIsSectionMiss | metrics/agency_metrics.py:78-128 | when the batch resolver finds nothing, the dashboard's resolver fails too |
| AgencyMetrics.SectionMissNamesFirstFailedLevel | metrics/agency_metrics.py:86-126 | a dashboard failure is "<Level> <id> not found." for a requested level that was searched within the previous level and not found |
| AgencyMetrics.ChildlessTitleReportedMissing | metrics/agency_metrics.py:87-89 | a title element without children is found by the batch resolver but reported "Title 1 not found." by the dashboard |
| AgencyMetrics.MissingTitleSearchedAsNone | metrics/agency_metrics.py:87-89 | an ancestry without a title searches for N='None' and reports "Title None not found." |
| AgencyMetrics.GetCfrSectionOutcomes | metrics/agency_metrics.py:131-142 | a failed ancestry fetch gives its message first; then a missing or empty text gives its message; a success is the batch resolver's element, and it has children |
| AgencyMetrics.SegmentStartsWithComma | metrics/agency_metrics.py:36-43 | every locator segment is empty or starts with a comma |
| AgencyMetrics.FormatSplitsAfterTitle | metrics/agency_metrics.py:32-45 | the label is "Title <n>" followed by locator segments that are empty or start with a comma |
| AgencyMetrics.FormatStartsWithTitle | metrics/agency_metrics.py:34 | every label starts with "Title <n>" |
| AgencyMetrics.TitleEndsAtFirstComma | metrics/agency_metrics.py:32-45 | the first comma of a label is where the title part ends |
| AgencyMetrics.FormatDistinguishesTitles | metrics/agency_metrics.py:32-45 | two references with the same label have the same title |
| AgencyMetrics.FormatTitleOnly | metrics/agency_metrics.py:32-45 | with no truthy locator, the label is just "Title <n>" |
| AgencyMetrics.FormatIgnoresSectionAndEmptyFields | metrics/agency_metrics.py:36-43 | the section and empty-string locators do not affect the label |
| AgencyMetrics.FormatEndsWithPart | metrics/agency_metrics.py:42-45 | with a truthy part, the label ends with ", Part <part>" |
| AgencyMetrics.FormatFullReference | metrics/agency_metrics.py:32-45 | with all four locators present, the label lists them in order, each with its name |
| AgencyMetrics.NotFoundMessageNonEmpty | metrics/agency_metrics.py:89-126 | every not-found message is a non-empty string |
| AgencyMetrics.FailureNeverWarns | metrics/agency_metrics.py:202-215 | as written, every failure of `get_cfr_section` ends in a page error, and the fetch warning is never shown |
| AgencyMetrics.ShowReferenceWarnsOnFailure | metrics/agency_metrics.py:198-215 | as intended, a failure shows the warning exactly; a success shows the sum of the paragraphs' token counts, as the page as written does |
| ReferenceMetrics.ProcessReference | scripts/calculate_word_counts.py:110-159 | one reference's metrics; `PartSkipsResolution`, `EmptyPartMeasuresWholeTitle` and `WithoutPartMeasuresResolvedElement` state which element is measured and when it fails |
| ReferenceMetrics.Measure | scripts/calculate_word_counts.py:129-159 | the metrics of one element; `MeasureScoresOnlyLongTexts` and `SmogFailureIsolated` state which scores are present and when it fails |
| ReferenceMetrics.Params | utils/ecfr.py:36-42 | the query holds a parameter exactly for each truthy locator, under its name, with its value |
| ReferenceMetrics.MeasureScoresOnlyLongTexts | scripts/calculate_word_counts.py:129-152 | the word count is the `<P>` count; Flesch-Kincaid and Flesch are present exactly when the text has more than 100 tokens; SMOG is present only then |
| ReferenceMetrics.SmogFailureIsolated | scripts/calculate_word_counts.py:141-152 | a reference fails exactly when its long text makes Flesch-Kincaid or Flesch raise; a SMOG error only leaves SMOG absent |
| ReferenceMetrics.PartSkipsResolution | scripts/calculate_word_counts.py:117-122 | with a part, the ancestry service is not consulted, and the fetched document is measured whole |
| ReferenceMetrics.EmptyPartMeasuresWholeTitle | scripts/calculate_word_counts.py:112-122 | an empty-string part is left out of the fetch but still skips resolution, so the whole fetched title is measured |
| ReferenceMetrics.WithoutPartMeasuresResolvedElement | scripts/calculate_word_counts.py:121-134 | without a part, a success means both fetches and resolution succeeded, and the metrics are those of the resolved element inside the document |
| ReferenceMetrics.DashboardCountMatchesBatch | metrics/agency_metrics.py:202-211 | when the dashboard resolves the same document and ancestry, it shows the word count the batch stores |
| Aggregation.AgencySummary | scripts/calculate_word_counts.py:57-104 | a summary holds one record per reference, and each average is absent exactly when the total word count is 0 |
| Aggregation.MeasureAll | scripts/calculate_word_counts.py:66-76 | on success there is one record per reference; `MeasureAllInOrder` and `MeasureAllFirstFailure` state their order and which failure wins |
| Aggregation.LatestIssueDate | scripts/calculate_word_counts.py:67 | no title list is `TitlesUnavailable`; otherwise it succeeds exactly when some title has the number, with that title's date, and fails with `UnknownTitle` |
| Aggregation.LastIssueDate | scripts/calculate_word_counts.py:67 | absent exactly when no title has the number; otherwise the date of the last entry with that number |
| Aggregation.Aggregate | scripts/calculate_word_counts.py:57-104 | the reference loop and the division compute `AgencySummary`: the first failing reference's failure, or the summary |
| Aggregation.FailureIsFinal | scripts/calculate_word_counts.py:66-68 | once a prefix of the references fails, the agency fails with that failure |
| Aggregation.MeasureAllStep | scripts/calculate_word_counts.py:66-76 | one more reference appends its metrics, or the first failure stays |
| Aggregation.AppendRecord | scripts/calculate_word_counts.py:75-83 | one more record adds its words to the total, and score × words to each weighted sum for which it has a score |
| Aggregation.MeasureAllInOrder | scripts/calculate_word_counts.py:66-76 | an agency succeeds exactly when every reference does, and its records are the references' metrics in order |
| Aggregation.MeasureAllFirstFailure | scripts/calculate_word_counts.py:66-68 | an agency's failure is that of a reference all of whose predecessors succeeded |
| Aggregation.TotalWordsCoversEveryRecord | scripts/calculate_word_counts.py:75-85 | every record's count is within the total, and the total is 0 exactly when every count is |
| Aggregation.AverageAbsentIffNoWords | scripts/calculate_word_counts.py:86-94 | an average is absent exactly when every reference has 0 words |
| Aggregation.AverageWithinScores | scripts/calculate_word_counts.py:78-94 | when every reference with words carries the score and it lies in [lo, hi], the agency average lies in [lo, hi] |
| Aggregation.QuotientBounds | scripts/calculate_word_counts.py:86-94 | a weighted sum between lo × t and hi × t, divided by t, lies between lo and hi |
| Aggregation.WeightedSumAtLeast | scripts/calculate_word_counts.py:78-83 | the weighted sum is at least lo × total words |
| Aggregation.WeightedSumAtMost | scripts/calculate_word_counts.py:78-83 | the weighted sum is at most hi × total words |
| Aggregation.RecordAtLeast | scripts/calculate_word_counts.py:78-83 | one record's weighted score is at least lo × its words |
| Aggregation.RecordAtMost | scripts/calculate_word_counts.py:78-83 | one record's weighted score is at most hi × its words |
| Aggregation.MissingScoreDilutes | scripts/calculate_word_counts.py:78-94 | a reference with words but without a score still adds to that score's denominator |
| Aggregation.NoScoreAveragesZero | scripts/calculate_word_counts.py:86-94 | with words but no reference carrying a score, the average of that score is 0.0, not absent |
| Aggregation.NoScoreSumsZero | scripts/calculate_word_counts.py:78-83 | with no reference carrying a score, its weighted sum is 0.0 |
| Aggregation.WeightedAverageExample | scripts/calculate_word_counts.py:75-94 | words 50 and 150 with Flesch-Kincaid 8.0 and 10.0 give 200 words and an average of 9.5 |
| Batch.Store.constructor | scripts/calculate_word_counts.py:24-29 | a store starts with the given entries and an empty command log |
| Batch.Store.Delete | scripts/calculate_word_counts.py:41 | `delete` removes the key, nothing else, and logs the command |
| Batch.Store.Set | scripts/calculate_word_counts.py:106 | `set` maps the key to the summary, replacing any value, and logs the command |
| Batch.ProcessAgency | scripts/calculate_word_counts.py:57-107 | on success, the agency's summary is written under its slug and (slug, total words) is returned; on failure, nothing is written |
| Batch.FirstFailure | scripts/calculate_word_counts.py:46-47 | every agency before the index succeeds, and the agency at it fails |
| Batch.ResetAgencies | scripts/calculate_word_counts.py:39-41 | the reset loop sends one delete per agency slug, in order |
| Batch.ProcessAgencies | scripts/calculate_word_counts.py:46-50 | the agencies are processed in order up to the first failure, which aborts the run; the completed run returns the dict of word counts |
| Batch.CalculateWordCounts | scripts/calculate_word_counts.py:32-50 | no agency data ends the run with no store commands; otherwise all deletes, then the writes up to the first failure; the store ends as those commands leave it |
| Batch.RunCommands | scripts/calculate_word_counts.py:32-50 | the store commands of a run; `DeletesBeforeSets` and `RunStore` state their order and the store they leave |
| Batch.RunOutcome | scripts/calculate_word_counts.py:32-50 | the run's result; `CompletedCountsMatchStore` and `PersistedSummaries` relate it to the store |
| Batch.RunStep | scripts/calculate_word_counts.py:46-47 | a successful agency adds its write and its pair; a failing one is the first failure |
| Batch.ApplyAppend | scripts/calculate_word_counts.py:41-106 | store commands compose: applying a + b is applying a, then b |
| Batch.ApplyResets | scripts/calculate_word_counts.py:40-41 | the reset loop removes exactly the listed slugs |
| Batch.ApplyWrites | scripts/calculate_word_counts.py:106 | the writes overlay the stored summaries on the store |
| Batch.StoredKeys | scripts/calculate_word_counts.py:106 | only listed slugs are written |
| Batch.RunStore | scripts/calculate_word_counts.py:32-50 | after a run, the store is the old store without the listed slugs, overlaid with the summaries of the agencies before the first failure |
| Batch.UnlistedKeysUntouched | scripts/calculate_word_counts.py:40-47 | a key that is no agency's slug keeps its value, or stays absent |
| Batch.RerunIdempotent | scripts/calculate_word_counts.py:32-50 | running again with the same services leaves the store as one run did |
| Batch.ResetsInOrder | scripts/calculate_word_counts.py:40-41 | the i-th reset deletes the i-th agency's slug |
| Batch.WritesInOrder | scripts/calculate_word_counts.py:46-47 | the i-th write stores the i-th agency's summary |
| Batch.DeletesBeforeSets | scripts/calculate_word_counts.py:39-47 | every delete precedes every write: n deletes in agency order, then one write per agency up to the first failure |
| Batch.StoredSummaries | scripts/calculate_word_counts.py:106 | with distinct slugs, each processed agency's summary is stored under its slug, and nothing else is written |
| Batch.PersistedSummaries | scripts/calculate_word_counts.py:32-50 | with distinct slugs, agencies before the first failure have their summary stored, and the failing agency and those after it have no entry |
| Batch.DictMatchesStored | scripts/calculate_word_counts.py:50-107 | the returned dict has the written keys, each with the stored total word count |
| Batch.DictStep | scripts/calculate_word_counts.py:50 | `dict(results)` adds each pair in order, and a later pair wins |
| Batch.StoredStep | scripts/calculate_word_counts.py:106 | each write updates the stored map at one slug |
| Batch.CompletedCountsMatchStore | scripts/calculate_word_counts.py:46-50 | a completed run's dict has a key for every agency slug, whose count equals the total word count in the store |
| Batch.StoredHasEveryWrite | scripts/calculate_word_counts.py:106 | every agency before the failure has an entry |

## Left out

- HTTP, JSON and XML parsing and serialisation are not modelled:
  - A fetch is a function parameter returning `None` on failure.
  - The XML document is given already parsed.
  - The `ET.tostring`/`BeautifulSoup` round trip of a resolved element is taken as that element parsed on its own, so its text has no tail.
  - Malformed XML, which would raise, is not modelled.
  - Responses missing expected keys (`agencies`, `ancestors`, `type`, an agency's `slug`) are not modelled; they raise a `KeyError`.
- The ancestry, title and agency responses are modelled as already-decoded lists. `None` stands for a failed fetch and for `if not agencies_data` on an empty response.
- The Redis connection, SSL, the `nltk` download, and logging have no bearing on the results and are left out.
- The readability formulas are library code and are not part of this model. They are the `Readability` parameter.
- Thread pool and semaphore: with one worker, agencies are processed one after another. That ordering is what the model states.
- Batch.CalculateWordCounts:
  - The model does not capture the following race: when an agency fails, the single worker may already have started the next agency before the pending tasks are cancelled. That agency's write can then still reach the store.
  - The model assumes no write after the failing agency.
- The Streamlit page layout is not modelled: the agency select box, the references table, `st.cache_data`, the content text area, and the branch where the title has no issue date (nothing is measured there).
- The dashboard's `fetch_agencies` and `fetch_titles` (lines 12-29) are left out as I/O. `ShowReference` starts once the issue date is known.
- Integer widths need no modelling: word counts are Python integers, and scores are modelled as `real`, not floating point.
- Python's `str.split()`/`str.strip()` whitespace is the fixed character set in `Text.IsSpace`. No Unicode database is consulted.

## Findings

| source | as written | input that shows it | evidently intended | confidence | as-written member | corrected member |
|---|---|---|---|---|---|---|
| metrics/agency_metrics.py:202-215 | `if reference_content:` is true for every message `get_cfr_section` returns, since each is a non-empty string; the message then reaches `ET.tostring`, which raises | the ancestry fetch fails, so `get_cfr_section` returns "Failed to fetch ancestry data."; the page raises instead of showing the fetch warning of line 215 | on failure, show the warning; on success, show the word count | high, not executed | AgencyMetrics.FailureNeverWarns | AgencyMetrics.ShowReferenceWarnsOnFailure |
