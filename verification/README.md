# Literature Analyzer: the ETL core, in Dafny

This project models the data path of the Literature Analyzer dashboard. A
keyword search yields a list of PubMed identifiers. `get_literature_summary`
fetches the records for those identifiers in batches of 10,000 and flattens
each record into one row of eight columns: Title, Abstract, Journal, PMID,
Publisher, Language, Year and Month. The Streamlit script then derives the
views it charts from that table: the abstract corpus, publications per year
and the peak year, the top 20 journals, and the language and country
frequency tables.

Modules:

- `Wrappers`: `Option` and `Result`.
- `Batching`: the batch split of the identifier list.
- `Pubmed`: the part of a parsed efetch record that the summary reads. Each
  dictionary key is an `Option`, and `AbstractText` and `Language` are lists.
- `Extraction`: one nested lookup per column. A failed lookup becomes the
  exception it would raise (`KeyError` or `IndexError`). Every column except
  Title is guarded and falls back to `"No Data"`.
- `Summary`: `get_literature_summary`. It is written twice: as the function
  `LiteratureSummary`, and as the method `GetLiteratureSummary`, which has the
  source's loop shape (a `range` stride, eight column lists, the table rebuilt
  after each record). The method is proved to compute the function.
- `Text`: Python's string order, `' '.join` and whitespace-separated words.
- `Counting`: `value_counts()` and the sorts applied to its result.
- `Aggregates`: the views computed at app.py lines 129-142.

The Entrez efetch call is a parameter, `fetch: seq<string> -> seq<PubmedArticle>`.
It stands for the batch request and returns that batch's `PubmedArticle` list.

Two behaviours of the code are easy to miss, and the model keeps both:

- An empty search does not give an empty table. The table variable is only
  assigned inside the record loop, so when no record is fetched the function
  fails with an unbound local. The model returns `Failure(TableUnbound)`
  (`Summary.EmptyIdsLeaveTableUnbound`).
- Not every column falls back to the sentinel. The Title lookup is
  unguarded, so a record without a title makes the whole summary raise.

## Model

| member | source | states |
|---|---|---|
| Batching.ChunksShape | app.py:37-49 | There are ceil(L / 10000) batches; laid end to end they give back the identifier list; each holds 1 to 10000 identifiers; all but the last are full |
| Batching.ChunksAreSlices | app.py:48-49 | Batch i is exactly `ids[i*10000 : (i+1)*10000]` (clamped), the slice the `range` loop cuts at start `i*10000` |
| Extraction.ExtractRow | app.py:52-80 | A row is produced exactly when the Title lookup succeeds; otherwise the row fails with the Title lookup's own exception |
| Extraction.RowCells | app.py:52-80 | Each cell holds its column's looked-up value when the lookup succeeds, and each guarded column whose lookup raised holds "No Data" |
| Extraction.MissingPathOnlyAffectsItsColumn | app.py:53-80 | If two records' lookups agree on every column but c, and c's lookup fails on the second, then the second row equals the first with only column c set to "No Data"; the title decides success for both alike |
| Extraction.WithoutKeyIsLocal | app.py:53-80 | Deleting the last key of a column's path makes that column's lookup fail and leaves every other column's lookup unchanged, so the row changes only in that column, to "No Data" |
| Extraction.AbstractIsFirstParagraph | app.py:53-56 | The Abstract cell is element [0] of `AbstractText`; an empty list gives "No Data" |
| Extraction.LanguageIsFirstListed | app.py:69-72 | The Language cell is element [0] of `Language`; an empty list gives "No Data" |
| Summary.ExtractRowsSpec | app.py:51-80 | Extraction succeeds exactly when every record has a title, and then yields each record's row at that record's position |
| Summary.ExtractRowsFirstFailure | app.py:51-52 | When record i is the first without a title, extraction raises exactly record i's lookup error |
| Summary.SummaryFirstFailure | app.py:48-52 | The whole summary propagates the lookup error of the first fetched record without a title, uncaught |
| Summary.SummaryOutcome | app.py:36-84 | The summary succeeds exactly when at least one record was fetched and all have titles; it fails with an unbound table exactly when none was fetched; on success it has one row per fetched record, in fetch order |
| Summary.EmptyIdsLeaveTableUnbound | app.py:48-84 | An empty identifier list gives the unbound-table error, not an empty table |
| Summary.RecordOrder | app.py:48-51 | Record j of batch k is processed right after every record of batches 0..k-1: batch order first, then in-batch order |
| Summary.FailsAtFirstUntitled | app.py:52 | Once a record without a title is reached, processing raises its error, whatever follows it |
| Summary.TabulatesSnoc | app.py:82-83 | Appending one record's values to the eight column lists appends exactly its row to the zipped table |
| Summary.BatchFailureAborts | app.py:48-52 | A batch that raises aborts the whole summary with that error; later batches do not matter |
| Summary.AppendBatch | app.py:51-83 | The per-batch record loop either raises exactly the extraction error or leaves the eight column lists and the table matching the rows extracted so far |
| Summary.GetLiteratureSummary | app.py:36-84 | The loop (range stride over batches, eight column lists, table rebuilt per record, unbound table when nothing was processed) computes exactly `LiteratureSummary` |
| Text.JoinWithSpace | app.py:129 | Joining with one space keeps every word (word count is the sum of the parts' word counts); its length is the parts' lengths plus one separator per neighbouring pair |
| Text.JoinSnoc | app.py:129 | Joining one more part appends a space and that part, so parts appear in list order |
| Counting.TallyIsCountTable | app.py:140 | The tally has one entry per distinct value, none for absent values, each with that value's exact number of occurrences, and its counts sum to the column length |
| Counting.SortFacts | app.py:131-138 | Sorting gives a permutation (same multiset) that is sorted by the chosen order, with the same keys and the same total count |
| Counting.SortKeepsCountTable | app.py:131-138 | A sorted frequency table is still the frequency table of the same column |
| Counting.ValueCounts | app.py:131-140 | `value_counts()` is the column's frequency table, by non-increasing count, with counts summing to the column length |
| Counting.LeadingEntries | app.py:134-135 | The first n entries of a table sorted by descending count keep their exact counts, distinct keys and order, and cover every value when n is the whole table |
| Counting.LeadingEntriesAreMostFrequent | app.py:134-135 | No value left out of the first n entries occurs more often than any value kept |
| Aggregates.CombinedAbstract | app.py:129 | An empty table gives the empty corpus and a one-row table gives that row's abstract (with `CombinedAbstractSnoc` this fixes the whole text); the corpus has as many words as all abstracts together, and its length is their total length plus one space between neighbouring abstracts |
| Aggregates.CombinedAbstractSnoc | app.py:129 | One more row appends a space and its abstract at the end of the corpus (table order) |
| Aggregates.YearCounts | app.py:131 | Publications per year: exact count per distinct Year value, keys strictly ascending in string order, counts summing to the row count |
| Aggregates.TopYears | app.py:132 | The Year frequency table by non-increasing count |
| Aggregates.PeakYear | app.py:132-148 | Defined exactly when the table is non-empty; then it is a Year value present in the table, with its exact count, and no year has more publications |
| Aggregates.TopJournals | app.py:134-136 | At most 20 distinct journals, each with its exact count (the sentinel included), by non-increasing count; no omitted journal outnumbers a listed one; fewer than 20 only when all are listed |
| Aggregates.LanguageCounts | app.py:138 | The Language frequency table by non-decreasing count, with counts summing to the row count |
| Aggregates.CountryCounts | app.py:140-142 | The (Country, Count) pairs: the Publisher frequency table by non-increasing count, with counts summing to the row count |

## Left out

- The Entrez calls `search`, `get_studies_list` and `fetch_details` (app.py:18-34). They are network I/O. The fetch is a function parameter, and network or endpoint failures are not modelled.
- Streamlit page layout, the sidebar, the spinner and `session_state` caching and refresh (app.py:91-127). These are UI plumbing.
- The Plotly charts, the choropleth, the WordCloud and the matplotlib rendering (app.py:144-215). This includes the upper-casing of language labels and the word cloud's own tokenisation.
- CSV export through `to_csv().encode('utf-8')` (app.py:86-88). Its format belongs to pandas.
- Tie order among equal counts. pandas does not fix it. `Counting.Sort` is an insertion sort that picks one admissible tie order, and the contracts state only sortedness and permutation.
- Values that the parsed XML stores as non-string objects (such as `StringElement` attributes), and an `AbstractText` or `Language` given as a bare string instead of a list. The record schema types these as strings and lists of strings.
- Text.JoinWithSpace: a word is a maximal run of characters other than the ASCII whitespace `str.split()` uses (including U+001C to U+001F). Python's `str.split()` also splits at non-ASCII Unicode whitespace such as U+0085 and U+00A0, which the model does not.
- Aggregates.PeakYear: indexing an empty frequency table raises `IndexError` in the source. The model returns `None` for that case.
