/** The views the dashboard derives from the table: the abstract corpus,
    publications per year and the peak year, the top 20 journals, and the
    language and country frequency tables. */
module Aggregates {
  import opened Wrappers
  import opened Text
  import opened Extraction
  import opened Counting
  import opened Summary

  /** Number of journals the journal view keeps (`journal[:20]`). */
  const TopJournalCount: nat := 20

  /** The column `c` of the table, in row order. */
  function Values(t: Table, c: Column): seq<string>
  {
    seq(|t|, i requires 0 <= i < |t| => Cell(t[i], c))
  }

  /** `' '.join(data['Abstract'])`: every abstract, in table order, with one
      space between neighbours; no word is lost or merged. */
  function CombinedAbstract(t: Table): (r: string)
    ensures |t| == 0 ==> r == ""
    ensures |t| == 1 ==> r == t[0].abstractText
    ensures WordCount(r) == SumWordCounts(Values(t, Abstract))
    ensures |t| > 0 ==> |r| == TotalLength(Values(t, Abstract)) + |t| - 1
  {
    JoinWithSpace(Values(t, Abstract));
    Join(" ", Values(t, Abstract))
  }

  /** A row added to a non-empty table adds a space and its abstract at the
      end of the corpus. */
  lemma CombinedAbstractSnoc(t: Table, row: Row)
    requires |t| > 0
    ensures CombinedAbstract(t + [row]) == CombinedAbstract(t) + " " + row.abstractText
  {
    assert Values(t + [row], Abstract) == Values(t, Abstract) + [row.abstractText];
    JoinSnoc(Values(t, Abstract), row.abstractText);
  }

  /** `data['Year'].value_counts().sort_index()`: publications per year, by
      ascending year. */
  function YearCounts(t: Table): (r: seq<Entry>)
    ensures IsCountTable(Values(t, Year), r)
    ensures forall i, j :: 0 <= i < j < |r| ==> StrLe(r[i].key, r[j].key) && r[i].key != r[j].key
    ensures SumCounts(r) == |t|
  {
    var vc := ValueCounts(Values(t, Year));
    SortKeepsCountTable(KeyAscending, Values(t, Year), vc);
    var r := Sort(KeyAscending, vc);
    assert forall i, j :: 0 <= i < j < |r| ==> Keys(r)[i] != Keys(r)[j];
    r
  }

  /** `data['Year'].value_counts().sort_values(ascending=False)`. */
  function TopYears(t: Table): (r: seq<Entry>)
    ensures IsCountTable(Values(t, Year), r)
    ensures Sorted(CountDescending, r)
  {
    var vc := ValueCounts(Values(t, Year));
    SortKeepsCountTable(CountDescending, Values(t, Year), vc);
    Sort(CountDescending, vc)
  }

  /** `(top_year.index[0], top_year.values[0])`: a year with the most
      publications and its count. On an empty table the subscript raises,
      modelled as `None`. */
  function PeakYear(t: Table): (r: Option<Entry>)
    ensures r.Some? <==> |t| > 0
    ensures r.Some? ==> r.value.key in Values(t, Year)
    ensures r.Some? ==> r.value.count == multiset(Values(t, Year))[r.value.key]
    ensures r.Some? ==> forall y :: y in Values(t, Year) ==> multiset(Values(t, Year))[y] <= r.value.count
  {
    var years := Values(t, Year);
    var top := TopYears(t);
    if |t| == 0 then None
    else
      assert years[0] in Keys(top);
      assert forall y :: y in years ==> multiset(years)[y] <= top[0].count by {
        forall y | y in years ensures multiset(years)[y] <= top[0].count {
          assert y in Keys(top);
          var i :| 0 <= i < |top| && Keys(top)[i] == y;
          if i > 0 { assert Le(CountDescending, top[0], top[i]); }
        }
      }
      Some(top[0])
  }

  /** `journal[:20]` with `journal` the journal frequency table by
      descending count: at most 20 journals, each with its exact count
      (the sentinel counts as a journal like any other), by non-increasing
      count, and no journal left out has more publications than one listed;
      fewer than 20 rows only when every journal is listed. */
  function TopJournals(t: Table): (r: seq<Entry>)
    ensures |r| <= TopJournalCount
    ensures NoDup(Keys(r))
    ensures forall i :: 0 <= i < |r| ==>
      r[i].key in Values(t, Journal) && r[i].count == multiset(Values(t, Journal))[r[i].key]
    ensures Sorted(CountDescending, r)
    ensures |r| < TopJournalCount ==> forall j :: j in Values(t, Journal) ==> j in Keys(r)
    ensures forall j, i :: j in Values(t, Journal) && j !in Keys(r) && 0 <= i < |r| ==>
      multiset(Values(t, Journal))[j] <= r[i].count
  {
    var journals := Values(t, Journal);
    var vc := ValueCounts(journals);
    SortKeepsCountTable(CountDescending, journals, vc);
    var full := Sort(CountDescending, vc);
    var n := if |full| <= TopJournalCount then |full| else TopJournalCount;
    LeadingEntries(journals, full, n);
    LeadingEntriesAreMostFrequent(journals, full, n);
    full[..n]
  }

  /** `data['Language'].value_counts().sort_values()`: publications per
      language, by ascending count. */
  function LanguageCounts(t: Table): (r: seq<Entry>)
    ensures IsCountTable(Values(t, Language), r)
    ensures Sorted(CountAscending, r)
    ensures SumCounts(r) == |t|
  {
    var vc := ValueCounts(Values(t, Language));
    SortKeepsCountTable(CountAscending, Values(t, Language), vc);
    Sort(CountAscending, vc)
  }

  /** `publisher_df`: the (Country, Count) pairs of
      `data['Publisher'].value_counts()`. */
  function CountryCounts(t: Table): (r: seq<Entry>)
    ensures IsCountTable(Values(t, Publisher), r)
    ensures Sorted(CountDescending, r)
    ensures SumCounts(r) == |t|
  {
    ValueCounts(Values(t, Publisher))
  }
}
