/** Flattening of one parsed record into one table row: each column is a
    fixed nested lookup, and every column but Title falls back to the
    sentinel "No Data" when its lookup raises. */
module Extraction {
  import opened Wrappers
  import opened Pubmed

  /** The sentinel written into a column whose lookup failed. */
  const NoData: string := "No Data"

  /** The eight columns of the table, in table order. */
  datatype Column = Title | Abstract | Journal | PMID | Publisher | Language | Year | Month

  /** One row of the table. */
  datatype Row = Row(
    title: string,
    abstractText: string,
    journal: string,
    pmid: string,
    publisher: string,
    language: string,
    year: string,
    month: string)

  /** The exception a subscript raises: `KeyError(key)` for an absent
      dictionary key, `IndexError` for `[0]` on an empty list. */
  datatype LookupError = MissingKey(key: string) | IndexOutOfRange

  function Cell(row: Row, c: Column): string
  {
    match c
    case Title => row.title
    case Abstract => row.abstractText
    case Journal => row.journal
    case PMID => row.pmid
    case Publisher => row.publisher
    case Language => row.language
    case Year => row.year
    case Month => row.month
  }

  function WithCell(row: Row, c: Column, v: string): Row
  {
    match c
    case Title => row.(title := v)
    case Abstract => row.(abstractText := v)
    case Journal => row.(journal := v)
    case PMID => row.(pmid := v)
    case Publisher => row.(publisher := v)
    case Language => row.(language := v)
    case Year => row.(year := v)
    case Month => row.(month := v)
  }

  /** `d[key]` on a dictionary whose entry for `key` is `o`. */
  function Key<T>(o: Option<T>, key: string): Result<T, LookupError>
  {
    match o
    case Some(v) => Success(v)
    case None => Failure(MissingKey(key))
  }

  /** `xs[0]`. */
  function First(xs: seq<string>): Result<string, LookupError>
  {
    if |xs| == 0 then Failure(IndexOutOfRange) else Success(xs[0])
  }

  /** `paper['MedlineCitation']['Article']`. */
  function ArticleOf(mc: MedlineCitation): Result<ArticleInfo, LookupError>
  {
    Key(mc.article, "Article")
  }

  /** `...['Article']['Journal']['JournalIssue']['PubDate']`. */
  function PubDateOf(art: ArticleInfo): Result<PubDate, LookupError>
  {
    var j :- Key(art.journal, "Journal");
    var issue :- Key(j.journalIssue, "JournalIssue");
    Key(issue.pubDate, "PubDate")
  }

  /** The nested subscript chain that fills column `c`, evaluated left to
      right, so the error is the first subscript that fails. */
  function Lookup(a: PubmedArticle, c: Column): Result<string, LookupError>
  {
    var mc :- Key(a.medlineCitation, "MedlineCitation");
    match c
    case Title =>
      var art :- ArticleOf(mc);
      Key(art.articleTitle, "ArticleTitle")
    case Abstract =>
      var art :- ArticleOf(mc);
      var ab :- Key(art.abstractInfo, "Abstract");
      var texts :- Key(ab.abstractText, "AbstractText");
      First(texts)
    case Journal =>
      var art :- ArticleOf(mc);
      var j :- Key(art.journal, "Journal");
      Key(j.title, "Title")
    case PMID => Key(mc.pmid, "PMID")
    case Publisher =>
      var info :- Key(mc.medlineJournalInfo, "MedlineJournalInfo");
      Key(info.country, "Country")
    case Language =>
      var art :- ArticleOf(mc);
      var langs :- Key(art.language, "Language");
      First(langs)
    case Year =>
      var art :- ArticleOf(mc);
      var date :- PubDateOf(art);
      Key(date.year, "Year")
    case Month =>
      var art :- ArticleOf(mc);
      var date :- PubDateOf(art);
      Key(date.month, "Month")
  }

  /** A defaulted column: the looked-up value, or the sentinel when the
      lookup raised (the source's bare `except`). */
  function Defaulted(a: PubmedArticle, c: Column): string
  {
    Lookup(a, c).GetOr(NoData)
  }

  /** The row built from one record. The Title lookup is not guarded, so a
      record without a title raises instead of yielding a row. */
  function ExtractRow(a: PubmedArticle): (r: Result<Row, LookupError>)
    ensures r.Success? <==> Lookup(a, Title).Success?
    ensures r.Failure? ==> r.error == Lookup(a, Title).error
  {
    var title :- Lookup(a, Title);
    Success(Row(title, Defaulted(a, Abstract), Defaulted(a, Journal), Defaulted(a, PMID),
                Defaulted(a, Publisher), Defaulted(a, Language), Defaulted(a, Year),
                Defaulted(a, Month)))
  }

  /** Every cell of an extracted row is its column's looked-up value, and
      every defaulted column whose lookup raised holds the sentinel. */
  lemma RowCells(a: PubmedArticle)
    requires ExtractRow(a).Success?
    ensures forall c :: Lookup(a, c).Success? ==> Cell(ExtractRow(a).value, c) == Lookup(a, c).value
    ensures forall c :: c != Title && Lookup(a, c).Failure? ==> Cell(ExtractRow(a).value, c) == NoData
  {
  }

  /** A failed lookup is local to its column: two records whose lookups agree
      on every other column give rows that agree everywhere except in that
      column, which holds the sentinel. */
  lemma MissingPathOnlyAffectsItsColumn(a: PubmedArticle, b: PubmedArticle, c: Column)
    requires c != Title
    requires forall c' :: c' != c ==> Lookup(b, c') == Lookup(a, c')
    requires Lookup(b, c).Failure?
    ensures ExtractRow(b).Success? <==> ExtractRow(a).Success?
    ensures ExtractRow(a).Success? ==> ExtractRow(b).value == WithCell(ExtractRow(a).value, c, NoData)
  {
  }

  /** The record with the last key of column `c`'s path removed (when the
      path reaches that far); every other field is kept. */
  function WithoutKey(a: PubmedArticle, c: Column): PubmedArticle
  {
    match a.medlineCitation
    case None => a
    case Some(mc) =>
      match c
      case PMID => PubmedArticle(Some(mc.(pmid := None)))
      case Publisher =>
        (match mc.medlineJournalInfo
         case None => a
         case Some(info) => PubmedArticle(Some(mc.(medlineJournalInfo := Some(info.(country := None))))))
      case _ =>
        match mc.article
        case None => a
        case Some(art) =>
          var art' := match c
            case Title => art.(articleTitle := None)
            case Language => art.(language := None)
            case Abstract =>
              (match art.abstractInfo
               case None => art
               case Some(ab) => art.(abstractInfo := Some(ab.(abstractText := None))))
            case Journal =>
              (match art.journal
               case None => art
               case Some(j) => art.(journal := Some(j.(title := None))))
            case _ =>
              (match art.journal
               case None => art
               case Some(j) =>
                 match j.journalIssue
                 case None => art
                 case Some(issue) =>
                   match issue.pubDate
                   case None => art
                   case Some(d) =>
                     var d' := if c == Year then d.(year := None) else d.(month := None);
                     art.(journal := Some(j.(journalIssue := Some(issue.(pubDate := Some(d')))))));
          PubmedArticle(Some(mc.(article := Some(art'))))
  }

  /** Removing the key that column `c` reads makes that lookup fail and
      leaves every other column's lookup as it was; for a defaulted column
      the row changes in that column only, to the sentinel. */
  lemma WithoutKeyIsLocal(a: PubmedArticle, c: Column)
    ensures Lookup(WithoutKey(a, c), c).Failure?
    ensures forall c' :: c' != c ==> Lookup(WithoutKey(a, c), c') == Lookup(a, c')
    ensures c != Title && ExtractRow(a).Success? ==>
      ExtractRow(WithoutKey(a, c)) == Success(WithCell(ExtractRow(a).value, c, NoData))
  {
  }

  /** The Abstract column keeps only the first paragraph of `AbstractText`;
      an empty list counts as missing. */
  lemma AbstractIsFirstParagraph(a: PubmedArticle, texts: seq<string>)
    requires a.medlineCitation.Some? && a.medlineCitation.value.article.Some?
    requires a.medlineCitation.value.article.value.abstractInfo.Some?
    requires a.medlineCitation.value.article.value.abstractInfo.value.abstractText == Some(texts)
    ensures Defaulted(a, Abstract) == if |texts| == 0 then NoData else texts[0]
  {
  }

  /** The Language column keeps only the first listed language; an empty
      list counts as missing. */
  lemma LanguageIsFirstListed(a: PubmedArticle, langs: seq<string>)
    requires a.medlineCitation.Some? && a.medlineCitation.value.article.Some?
    requires a.medlineCitation.value.article.value.language == Some(langs)
    ensures Defaulted(a, Language) == if |langs| == 0 then NoData else langs[0]
  {
  }
}
