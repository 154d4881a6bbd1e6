/** The records that flow between the ingestion, ranking, storage and notification code. */
module Entities {
  import opened Wrappers

  /** A sentence embedding (a list of floats in the source). */
  type Vector = seq<real>

  /** An ingested article, the dict ingest.py builds and hands to `insert_item` and `score_item`. */
  datatype Article = Article(
    id: string,
    url: string,
    title: string,
    source: string,
    published: string,
    text: string,
    summary: Option<string>,
    embedding: Option<Vector>)

  /**
   * A row of the liked/disliked queries: `id, title, summary, embedding, llm_topics`.
   * `llmTopics` is the raw JSON text of the column; decoding it is an oracle.
   */
  datatype FeedItem = FeedItem(
    id: string,
    title: Option<string>,
    summary: Option<string>,
    embedding: Option<Vector>,
    llmTopics: Option<string>)

  /** A judge reply that parsed: the `score`, `topics` and `reason` keys. */
  datatype Judgement = Judgement(score: int, topics: seq<string>, reason: string)

  /** `{**item, **result}`: the article with the judge's keys added. */
  datatype ScoredItem = ScoredItem(article: Article, judgement: Judgement)
}
