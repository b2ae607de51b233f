/** The part of a parsed PubMed efetch record that the summary reads. Every
    dictionary key the summary subscripts is an `Option`: `None` means the key
    is absent from the parsed XML. `AbstractText` and `Language` are lists. */
module Pubmed {
  import opened Wrappers

  datatype PubmedArticle = PubmedArticle(medlineCitation: Option<MedlineCitation>)

  datatype MedlineCitation = MedlineCitation(
    pmid: Option<string>,
    article: Option<ArticleInfo>,
    medlineJournalInfo: Option<MedlineJournalInfo>)

  datatype MedlineJournalInfo = MedlineJournalInfo(country: Option<string>)

  datatype ArticleInfo = ArticleInfo(
    articleTitle: Option<string>,
    abstractInfo: Option<AbstractInfo>,
    journal: Option<JournalInfo>,
    language: Option<seq<string>>)

  datatype AbstractInfo = AbstractInfo(abstractText: Option<seq<string>>)

  datatype JournalInfo = JournalInfo(title: Option<string>, journalIssue: Option<JournalIssue>)

  datatype JournalIssue = JournalIssue(pubDate: Option<PubDate>)

  datatype PubDate = PubDate(year: Option<string>, month: Option<string>)
}
