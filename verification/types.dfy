/** The records of `types.ts`, plus the shape of the analysis the language model returns.

    Scores are integers: the model is asked for integers from 1 to 10 and the fallback record
    uses 0, so nothing in the dashboard depends on fractional scores.
 */
module Types {
  import opened Basics

  datatype Status = Processed | Archived

  /** An article as it comes from the feed. */
  datatype RawArticle = RawArticle(
    id: string,
    title: string,
    link: string,
    content: string,
    companyName: string)

  /** The fields of the JSON object the classification call is required to return. */
  datatype Analysis = Analysis(
    summary: string,
    category: string,
    subCategory: string,
    relevanceScore: int,
    confidenceScore: int,
    keywordsMatched: seq<string>)

  /** A raw article merged with its analysis, plus its lifecycle status. */
  datatype ProcessedArticle = ProcessedArticle(
    id: string,
    title: string,
    link: string,
    content: string,
    companyName: string,
    summary: string,
    category: string,
    subCategory: string,
    relevanceScore: int,
    confidenceScore: int,
    keywordsMatched: seq<string>,
    status: Status)

  /** The progress line shown while the feed is processed. */
  datatype AppStatus = AppStatus(message: string, progress: int)

  datatype Role = User | Model

  datatype ChatMessage = ChatMessage(role: Role, text: string)

  datatype GroundingTool = GoogleSearch | GoogleMaps

  datatype GroundingChunkSource = GroundingChunkSource(uri: string, title: string)

  /** A citation; either source may be absent. */
  datatype GroundingChunk = GroundingChunk(web: Option<GroundingChunkSource>, maps: Option<GroundingChunkSource>)
}
