/** `get_literature_summary`: fetch every batch of identifiers, flatten each
    returned record into a row, and build the table from all rows. */
module Summary {
  import opened Wrappers
  import opened Pubmed
  import opened Extraction
  import opened Batching

  type Table = seq<Row>

  /** The fetch of one batch of identifiers: the `PubmedArticle` list that
      the database returns for it. */
  type Fetcher = seq<string> -> seq<PubmedArticle>

  /** Why the summary raises instead of returning a table: an unguarded
      Title lookup failed, or no record was ever processed, so the table
      variable was never bound. */
  datatype SummaryError = Uncaught(cause: LookupError) | TableUnbound

  /** The records of every batch, batch after batch. */
  function FetchAll(chunks: seq<seq<string>>, fetch: Fetcher): seq<PubmedArticle>
  {
    if chunks == [] then [] else fetch(chunks[0]) + FetchAll(chunks[1..], fetch)
  }

  /** Every record the summary processes, in processing order. */
  function FetchedArticles(ids: seq<string>, fetch: Fetcher): seq<PubmedArticle>
  {
    FetchAll(Chunks(ids), fetch)
  }

  predicate HasTitle(a: PubmedArticle)
  {
    Lookup(a, Title).Success?
  }

  /** Rows of the records in order, or the error of the first record whose
      title lookup fails. */
  function ExtractRows(arts: seq<PubmedArticle>): (r: Result<Table, LookupError>)
    ensures r.Success? ==> |r.value| == |arts|
  {
    if arts == [] then Success([])
    else
      var row :- ExtractRow(arts[0]);
      var rest :- ExtractRows(arts[1..]);
      Success([row] + rest)
  }

  /** Extraction succeeds exactly when every record has a title, and it
      then yields each record's row at the record's position. */
  lemma {:induction false} ExtractRowsSpec(arts: seq<PubmedArticle>)
    ensures ExtractRows(arts).Success? <==> forall i :: 0 <= i < |arts| ==> HasTitle(arts[i])
    ensures ExtractRows(arts).Success? ==>
      forall i :: 0 <= i < |arts| ==> ExtractRow(arts[i]) == Success(ExtractRows(arts).value[i])
  {
    if arts != [] {
      ExtractRowsSpec(arts[1..]);
      assert forall i :: 1 <= i < |arts| ==> arts[1..][i - 1] == arts[i];
    }
  }

  /** Otherwise extraction raises the error of the first record without a
      title. */
  lemma {:induction false} ExtractRowsFirstFailure(arts: seq<PubmedArticle>, i: nat)
    requires i < |arts| && !HasTitle(arts[i])
    requires forall j :: 0 <= j < i ==> HasTitle(arts[j])
    ensures ExtractRows(arts) == Failure(Lookup(arts[i], Title).error)
  {
    if i > 0 {
      assert HasTitle(arts[0]);
      assert forall j :: 0 <= j < i - 1 ==> arts[1..][j] == arts[j + 1];
      ExtractRowsFirstFailure(arts[1..], i - 1);
    }
  }

  /** The table, or the exception the summary raises. */
  function LiteratureSummary(ids: seq<string>, fetch: Fetcher): Result<Table, SummaryError>
  {
    match ExtractRows(FetchedArticles(ids, fetch))
    case Failure(e) => Failure(Uncaught(e))
    case Success(rows) => if rows == [] then Failure(TableUnbound) else Success(rows)
  }

  /** The summary succeeds exactly when at least one record was fetched and
      every fetched record has a title; the table then holds one row per
      fetched record, in batch order and then in-batch order. */
  lemma SummaryOutcome(ids: seq<string>, fetch: Fetcher)
    ensures var arts := FetchedArticles(ids, fetch);
      LiteratureSummary(ids, fetch).Success? <==>
        |arts| > 0 && forall i :: 0 <= i < |arts| ==> HasTitle(arts[i])
    ensures var arts := FetchedArticles(ids, fetch);
      LiteratureSummary(ids, fetch) == Failure(TableUnbound) <==> |arts| == 0
    ensures var arts := FetchedArticles(ids, fetch);
      LiteratureSummary(ids, fetch).Success? ==>
        var t := LiteratureSummary(ids, fetch).value;
        |t| == |arts| && forall i :: 0 <= i < |arts| ==> ExtractRow(arts[i]) == Success(t[i])
  {
    ExtractRowsSpec(FetchedArticles(ids, fetch));
  }

  /** A record without a title, preceded only by records with titles,
      makes the summary raise that record's lookup error. */
  lemma SummaryFirstFailure(ids: seq<string>, fetch: Fetcher, i: nat)
    requires var arts := FetchedArticles(ids, fetch);
      i < |arts| && !HasTitle(arts[i]) && forall j :: 0 <= j < i ==> HasTitle(arts[j])
    ensures LiteratureSummary(ids, fetch)
         == Failure(Uncaught(Lookup(FetchedArticles(ids, fetch)[i], Title).error))
  {
    ExtractRowsFirstFailure(FetchedArticles(ids, fetch), i);
  }

  /** An empty identifier list leaves the table unbound. */
  lemma EmptyIdsLeaveTableUnbound(fetch: Fetcher)
    ensures LiteratureSummary([], fetch) == Failure(TableUnbound)
  {
  }

  lemma {:induction false} FetchAllAppend(a: seq<seq<string>>, b: seq<seq<string>>, fetch: Fetcher)
    ensures FetchAll(a + b, fetch) == FetchAll(a, fetch) + FetchAll(b, fetch)
    decreases |a|
  {
    if a == [] {
      assert a + b == b;
    } else {
      assert (a + b)[1..] == a[1..] + b;
      FetchAllAppend(a[1..], b, fetch);
    }
  }

  /** Record `j` of batch `k` is processed right after all records of the
      earlier batches. */
  lemma RecordOrder(ids: seq<string>, fetch: Fetcher, k: nat, j: nat)
    requires k < |Chunks(ids)| && j < |fetch(Chunks(ids)[k])|
    ensures var cs := Chunks(ids);
      var offset := |FetchAll(cs[..k], fetch)|;
      offset + j < |FetchedArticles(ids, fetch)| &&
      FetchedArticles(ids, fetch)[offset + j] == fetch(cs[k])[j]
  {
    var cs := Chunks(ids);
    assert cs == cs[..k] + ([cs[k]] + cs[k + 1..]);
    FetchAllAppend(cs[..k], [cs[k]] + cs[k + 1..], fetch);
    assert FetchAll([cs[k]] + cs[k + 1..], fetch) == fetch(cs[k]) + FetchAll(cs[k + 1..], fetch);
  }

  lemma {:induction false} ExtractRowsAppend(a: seq<PubmedArticle>, b: seq<PubmedArticle>)
    requires ExtractRows(a).Success?
    ensures ExtractRows(a + b) ==
      match ExtractRows(b)
      case Failure(e) => Failure(e)
      case Success(y) => Success(ExtractRows(a).value + y)
    decreases |a|
  {
    if a == [] {
      assert a + b == b;
      match ExtractRows(b)
      case Failure(e) =>
      case Success(y) => assert [] + y == y;
    } else {
      assert (a + b)[0] == a[0];
      assert (a + b)[1..] == a[1..] + b;
      ExtractRowsAppend(a[1..], b);
      var row := ExtractRow(a[0]).value;
      assert ExtractRows(a).value == [row] + ExtractRows(a[1..]).value;
      match ExtractRows(b)
      case Failure(e) =>
      case Success(y) =>
        assert ExtractRows(a + b) == Success([row] + (ExtractRows(a[1..]).value + y));
        assert [row] + (ExtractRows(a[1..]).value + y) == ExtractRows(a).value + y;
    }
  }

  /** Processing stops at the first record without a title, whatever
      follows it. */
  lemma FailsAtFirstUntitled(prefix: seq<PubmedArticle>, rest: seq<PubmedArticle>)
    requires ExtractRows(prefix).Success?
    requires |rest| > 0 && !HasTitle(rest[0])
    ensures ExtractRows(prefix + rest) == Failure(Lookup(rest[0], Title).error)
  {
  }

  /** Extraction that has already raised keeps that error, whatever records
      follow. */
  lemma {:induction false} ExtractRowsFailurePrefix(a: seq<PubmedArticle>, b: seq<PubmedArticle>)
    requires ExtractRows(a).Failure?
    ensures ExtractRows(a + b) == ExtractRows(a)
    decreases |a|
  {
    assert a != [];
    assert (a + b)[0] == a[0];
    assert (a + b)[1..] == a[1..] + b;
    if ExtractRow(a[0]).Success? {
      ExtractRowsFailurePrefix(a[1..], b);
    }
  }

  /** One turn of the `range` loop cuts the next batch off the front of the
      identifiers not yet fetched. */
  lemma NextBatch(ids: seq<string>, start: nat)
    requires start < |ids|
    ensures Chunks(ids[start..])
         == [ids[start .. Min(start + ChunkSize, |ids|)]] + Chunks(ids[Min(start + ChunkSize, |ids|)..])
  {
    if |ids| - start > ChunkSize {
      assert ids[start..][ChunkSize..] == ids[start + ChunkSize..];
      assert ids[start..][..ChunkSize] == ids[start .. start + ChunkSize];
    } else {
      assert Min(start + ChunkSize, |ids|) == |ids|;
      assert ids[start .. |ids|] == ids[start..];
      assert ids[|ids|..] == [];
    }
  }

  lemma ExtractRowsSingleton(a: PubmedArticle)
    requires HasTitle(a)
    ensures ExtractRows([a]) == Success([ExtractRow(a).value])
  {
    assert [a][0] == a;
    assert [a][1..] == [];
    assert ExtractRows([a][1..]) == Success([]);
    assert [ExtractRow(a).value] + [] == [ExtractRow(a).value];
  }

  /** Appending a record with a title appends its row. */
  lemma RecordStep(prev: seq<PubmedArticle>, papers: seq<PubmedArticle>, i: nat)
    requires i < |papers| && HasTitle(papers[i])
    requires ExtractRows(prev + papers[..i]).Success?
    ensures ExtractRows(prev + papers[..i + 1])
         == Success(ExtractRows(prev + papers[..i]).value + [ExtractRow(papers[i]).value])
  {
    assert prev + papers[..i + 1] == (prev + papers[..i]) + [papers[i]];
    ExtractRowsSingleton(papers[i]);
    ExtractRowsAppend(prev + papers[..i], [papers[i]]);
  }

  /** The records fetched around one batch: those of the batches before it,
      its own, and those of the batches after it. */
  lemma FetchAllAround(done: seq<seq<string>>, chunk: seq<string>, later: seq<seq<string>>, fetch: Fetcher)
    ensures FetchAll(done + ([chunk] + later), fetch)
         == FetchAll(done, fetch) + fetch(chunk) + FetchAll(later, fetch)
  {
    FetchAllAppend(done, [chunk] + later, fetch);
    assert ([chunk] + later)[0] == chunk;
    assert ([chunk] + later)[1..] == later;
  }

  /** The batches fetched so far, the next batch, and the batches after
      it make up all batches. */
  lemma BatchProgress(ids: seq<string>, done: seq<seq<string>>, start: nat)
    requires start < |ids|
    requires done + Chunks(ids[Min(start, |ids|)..]) == Chunks(ids)
    ensures var chunk := ids[start .. Min(start + ChunkSize, |ids|)];
      var later := Chunks(ids[Min(start + ChunkSize, |ids|)..]);
      && Chunks(ids) == done + ([chunk] + later)
      && (done + [chunk]) + Chunks(ids[Min(start + ChunkSize, |ids|)..]) == Chunks(ids)
  {
    NextBatch(ids, start);
    assert Min(start, |ids|) == start;
  }

  lemma FetchAllSnoc(done: seq<seq<string>>, chunk: seq<string>, fetch: Fetcher)
    ensures FetchAll(done + [chunk], fetch) == FetchAll(done, fetch) + fetch(chunk)
  {
    FetchAllAppend(done, [chunk], fetch);
    assert [chunk][1..] == [];
    assert FetchAll([chunk], fetch) == fetch(chunk);
  }

  /** Once the stride passes the end of the list, every batch has been
      fetched. */
  lemma AllBatchesDone(ids: seq<string>, fetch: Fetcher, done: seq<seq<string>>, start: nat)
    requires start >= |ids|
    requires done + Chunks(ids[Min(start, |ids|)..]) == Chunks(ids)
    ensures FetchAll(done, fetch) == FetchedArticles(ids, fetch)
  {
    assert ids[Min(start, |ids|)..] == [];
    assert done == Chunks(ids);
  }

  /** A batch whose records raise aborts the whole summary with that
      error; later batches are never looked at. */
  lemma BatchFailureAborts(ids: seq<string>, fetch: Fetcher, done: seq<seq<string>>,
                           chunk: seq<string>, later: seq<seq<string>>, e: LookupError)
    requires Chunks(ids) == done + ([chunk] + later)
    requires ExtractRows(FetchAll(done, fetch) + fetch(chunk)) == Failure(e)
    ensures LiteratureSummary(ids, fetch) == Failure(Uncaught(e))
  {
    FetchAllAround(done, chunk, later, fetch);
    ExtractRowsFailurePrefix(FetchAll(done, fetch) + fetch(chunk), FetchAll(later, fetch));
  }

  /** A record without a title makes the extraction of its whole batch
      raise that record's error. */
  lemma UntitledInBatch(prev: seq<PubmedArticle>, papers: seq<PubmedArticle>, i: nat)
    requires i < |papers| && !HasTitle(papers[i])
    requires ExtractRows(prev + papers[..i]).Success?
    ensures ExtractRows(prev + papers) == Failure(Lookup(papers[i], Title).error)
  {
    assert prev + papers == (prev + papers[..i]) + papers[i..];
    FailsAtFirstUntitled(prev + papers[..i], papers[i..]);
  }

  /** The eight lists the source grows, one value per processed record. */
  datatype ColumnLists = ColumnLists(
    titles: seq<string>,
    abstracts: seq<string>,
    journals: seq<string>,
    pmids: seq<string>,
    publishers: seq<string>,
    languages: seq<string>,
    years: seq<string>,
    months: seq<string>)

  /** `pd.DataFrame(list(zip(...)))` over the eight lists; `zip` stops at
      the shortest list. */
  function Frame(cols: ColumnLists): Table
  {
    var n := Min(|cols.titles|, Min(|cols.abstracts|, Min(|cols.journals|, Min(|cols.pmids|,
             Min(|cols.publishers|, Min(|cols.languages|, Min(|cols.years|, |cols.months|)))))));
    seq(n, i requires 0 <= i < n =>
      Row(cols.titles[i], cols.abstracts[i], cols.journals[i], cols.pmids[i],
          cols.publishers[i], cols.languages[i], cols.years[i], cols.months[i]))
  }

  /** The eight lists all have one entry per row of `rows`, and zipping them
      gives `rows`. */
  predicate Tabulates(cols: ColumnLists, rows: Table)
  {
    && |cols.titles| == |cols.abstracts| == |cols.journals| == |cols.pmids| == |rows|
    && |cols.publishers| == |cols.languages| == |cols.years| == |cols.months| == |rows|
    && Frame(cols) == rows
  }

  /** The table variable after `rows` have been processed: unbound until the
      first record. */
  function Bound(rows: Table): Option<Table>
  {
    if rows == [] then None else Some(rows)
  }

  /** Appending one row's cells to the eight lists appends that row to the
      zipped table. */
  lemma TabulatesSnoc(cols: ColumnLists, rows: Table, row: Row)
    requires Tabulates(cols, rows)
    ensures Tabulates(ColumnLists(cols.titles + [row.title], cols.abstracts + [row.abstractText],
                                  cols.journals + [row.journal], cols.pmids + [row.pmid],
                                  cols.publishers + [row.publisher], cols.languages + [row.language],
                                  cols.years + [row.year], cols.months + [row.month]),
                      rows + [row])
  {
  }

  /** The inner loop over one batch's records: append each record's cells
      to the eight lists and rebind the table, or stop at the first record
      whose title lookup raises. */
  method AppendBatch(papers: seq<PubmedArticle>, cols: ColumnLists, df: Option<Table>,
                     ghost prev: seq<PubmedArticle>)
    returns (raised: Option<LookupError>, cols': ColumnLists, df': Option<Table>)
    requires ExtractRows(prev).Success?
    requires Tabulates(cols, ExtractRows(prev).value) && df == Bound(ExtractRows(prev).value)
    ensures raised.None? <==> ExtractRows(prev + papers).Success?
    ensures raised.Some? ==> ExtractRows(prev + papers) == Failure(raised.value)
    ensures raised.None? ==>
      Tabulates(cols', ExtractRows(prev + papers).value) && df' == Bound(ExtractRows(prev + papers).value)
  {
    cols', df' := cols, df;
    var i := 0;
    assert prev + papers[..i] == prev;
    while i < |papers|
      invariant i <= |papers|
      invariant ExtractRows(prev + papers[..i]).Success?
      invariant Tabulates(cols', ExtractRows(prev + papers[..i]).value)
      invariant df' == Bound(ExtractRows(prev + papers[..i]).value)
    {
      var paper := papers[i];
      match Lookup(paper, Title)
      case Failure(e) =>
        UntitledInBatch(prev, papers, i);
        return Some(e), cols', df';
      case Success(title) =>
        RecordStep(prev, papers, i);
        TabulatesSnoc(cols', ExtractRows(prev + papers[..i]).value, ExtractRow(paper).value);
        cols' := cols'.(titles := cols'.titles + [title]);
        cols' := cols'.(abstracts := cols'.abstracts + [Defaulted(paper, Abstract)]);
        cols' := cols'.(journals := cols'.journals + [Defaulted(paper, Journal)]);
        cols' := cols'.(pmids := cols'.pmids + [Defaulted(paper, PMID)]);
        cols' := cols'.(publishers := cols'.publishers + [Defaulted(paper, Publisher)]);
        cols' := cols'.(languages := cols'.languages + [Defaulted(paper, Language)]);
        cols' := cols'.(years := cols'.years + [Defaulted(paper, Year)]);
        cols' := cols'.(months := cols'.months + [Defaulted(paper, Month)]);
        df' := Some(Frame(cols'));
        i := i + 1;
    }
    assert papers[..i] == papers;
    return None, cols', df';
  }

  /** The source's loop: batches cut by a `range` stride, eight column
      lists grown record by record, and the table rebound after each
      record. It computes exactly `LiteratureSummary`. */
  method GetLiteratureSummary(ids: seq<string>, fetch: Fetcher) returns (r: Result<Table, SummaryError>)
    ensures r == LiteratureSummary(ids, fetch)
  {
    var cols := ColumnLists([], [], [], [], [], [], [], []);
    var df: Option<Table> := None;
    ghost var done: seq<seq<string>> := [];
    var start := 0;
    while start < |ids|
      invariant done + Chunks(ids[Min(start, |ids|)..]) == Chunks(ids)
      invariant ExtractRows(FetchAll(done, fetch)).Success?
      invariant Tabulates(cols, ExtractRows(FetchAll(done, fetch)).value)
      invariant df == Bound(ExtractRows(FetchAll(done, fetch)).value)
      decreases |ids| - start
    {
      var chunk := ids[start .. Min(start + ChunkSize, |ids|)];
      ghost var later := Chunks(ids[Min(start + ChunkSize, |ids|)..]);
      BatchProgress(ids, done, start);
      var papers := fetch(chunk);
      var raised;
      raised, cols, df := AppendBatch(papers, cols, df, FetchAll(done, fetch));
      if raised.Some? {
        BatchFailureAborts(ids, fetch, done, chunk, later, raised.value);
        return Failure(Uncaught(raised.value));
      }
      FetchAllSnoc(done, chunk, fetch);
      done := done + [chunk];
      start := start + ChunkSize;
    }
    AllBatchesDone(ids, fetch, done, start);
    if df == None {
      r := Failure(TableUnbound);
    } else {
      r := Success(df.value);
    }
  }
}
