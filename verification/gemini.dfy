/** The pure parts of `services/geminiService.ts`.

    Every call to the hosted model is a parameter (`api`) that either resolves with the
    reply text or rejects with a thrown value.  JSON parsing of the classification reply is a
    parameter too (`parse`), returning `None` where `JSON.parse` would throw.  The fixed instruction wording, model names and schema
    configuration are not modelled: a prompt is the record of the values it embeds.
 */
module Gemini {
  import opened Basics
  import opened Text
  import opened Types

  /** How much of an article's content the classification prompt embeds. */
  const ContentLimit: nat := 4000

  /** The values the classification prompt embeds around its fixed wording. */
  datatype AnalysisPrompt = AnalysisPrompt(
    companyList: string,
    keywordList: string,
    title: string,
    excerpt: string)

  /** The classification prompt for one article.  The watch-lists appear as `[a, b, ...]`
      and the content is cut to its first 4000 characters. */
  function AnalysisPromptFor(title: string, content: string, companies: seq<string>, keywords: seq<string>): (p: AnalysisPrompt)
    ensures p.title == title
    ensures p.excerpt <= content && |p.excerpt| <= ContentLimit
    ensures |content| <= ContentLimit ==> p.excerpt == content
    ensures |content| > ContentLimit ==> |p.excerpt| == ContentLimit
    ensures |p.companyList| >= 2 && |p.keywordList| >= 2
  {
    AnalysisPrompt(BracketList(companies), BracketList(keywords), title, Prefix(content, ContentLimit))
  }

  /** The watch-lists embedded in a prompt can be read back in order, provided no entry
      contains a comma. */
  lemma PromptListsReadBack(title: string, content: string, companies: seq<string>, keywords: seq<string>)
    requires |companies| > 0 && |keywords| > 0
    requires forall i :: 0 <= i < |companies| ==> ',' !in companies[i]
    requires forall i :: 0 <= i < |keywords| ==> ',' !in keywords[i]
    ensures var p := AnalysisPromptFor(title, content, companies, keywords);
      && Split(p.companyList[1..|p.companyList| - 1], ", ") == companies
      && Split(p.keywordList[1..|p.keywordList| - 1], ", ") == keywords
  {
    BracketListRoundTrip(companies);
    BracketListRoundTrip(keywords);
  }

  /** The prompt cannot tell an empty watch-list from the list holding one empty entry, nor
      an entry containing `", "` from the two entries around it. */
  lemma PromptListsAmbiguous(title: string, content: string, keywords: seq<string>)
    ensures AnalysisPromptFor(title, content, [], keywords) == AnalysisPromptFor(title, content, [""], keywords)
    ensures AnalysisPromptFor(title, content, ["Co., Ltd."], keywords)
         == AnalysisPromptFor(title, content, ["Co.", "Ltd."], keywords)
  {
    BracketListAmbiguous();
  }

  /** The record substituted for the model's analysis when the call or the parse fails. */
  const Fallback: Analysis := Analysis(
    "Could not analyze article due to an API error.",
    "Uncategorized",
    "Error",
    0,
    0,
    [])

  /** `summarizeAndCategorizeArticle`: it never rejects.  Anything other than the fallback is
      the parse of a successful reply, and a reply that parses is used as is after trimming. */
  function SummarizeAndCategorizeArticle(
    title: string,
    content: string,
    companies: seq<string>,
    keywords: seq<string>,
    api: AnalysisPrompt -> Result<string>,
    parse: string -> Option<Analysis>): (r: Analysis)
    ensures var reply := api(AnalysisPromptFor(title, content, companies, keywords));
      && (r == Fallback || (reply.Ok? && parse(Trim(reply.value)) == Some(r)))
      && (reply.Err? ==> r == Fallback)
      && (reply.Ok? && parse(Trim(reply.value)).Some? ==> r == parse(Trim(reply.value)).value)
  {
    match api(AnalysisPromptFor(title, content, companies, keywords))
    case Err(_) => Fallback
    case Ok(text) =>
      match parse(Trim(text))
      case None => Fallback
      case Some(analysis) => analysis
  }

  /** The pair the report summary is asked about. */
  datatype ArticleData = ArticleData(title: string, summary: string)

  /** One numbered entry of the report-summary prompt. */
  function NumberedEntry(k: nat, a: ArticleData): string
  {
    NatToString(k) + ". " + a.title + "\nSummary: " + a.summary
  }

  /** The article list of the report-summary prompt: entries numbered from 1 in input order,
      separated by a blank line. */
  function ArticlesText(articles: seq<ArticleData>): string
  {
    Join(seq(|articles|, i requires 0 <= i < |articles| => NumberedEntry(i + 1, articles[i])), "\n\n")
  }

  /** The first entry alone, and each further article appended as the next-numbered entry
      after a blank line: this determines the text for every list. */
  lemma ArticlesTextShape(articles: seq<ArticleData>, a: ArticleData)
    ensures ArticlesText([]) == ""
    ensures ArticlesText([a]) == NumberedEntry(1, a)
    ensures |articles| > 0 ==>
      ArticlesText(articles + [a]) == ArticlesText(articles) + "\n\n" + NumberedEntry(|articles| + 1, a)
  {
    var e := seq(|articles|, i requires 0 <= i < |articles| => NumberedEntry(i + 1, articles[i]));
    var xs := articles + [a];
    var e' := seq(|xs|, i requires 0 <= i < |xs| => NumberedEntry(i + 1, xs[i]));
    assert e' == e + [NumberedEntry(|articles| + 1, a)];
    if |articles| > 0 {
      JoinSnoc(e, NumberedEntry(|articles| + 1, a), "\n\n");
    }
  }

  /** `generateReportSummary`: one call whose prompt embeds the numbered article list; the
      reply text is returned as is and a rejection propagates. */
  function GenerateReportSummary(articles: seq<ArticleData>, api: string -> Result<string>): (r: Result<string>)
    ensures api(ArticlesText(articles)).Err? ==> r == Err(api(ArticlesText(articles)).thrown)
    ensures api(ArticlesText(articles)).Ok? ==> r == Ok(api(ArticlesText(articles)).value)
  {
    api(ArticlesText(articles))
  }

  const TranscriptionFailedPrefix := "Transcription failed: "
  const TranscriptionUnknownError := "An unknown error occurred during transcription."

  /** `transcribeAudio`: it never rejects.  A resolved call yields its text; a rejection with an
      `Error` yields a failure notice ending in that error's message; any other rejection
      yields the fixed unknown-error text. */
  function TranscribeAudio(audio: string, mimeType: string, api: (string, string) -> Result<string>): (r: string)
    ensures api(audio, mimeType).Ok? ==> r == api(audio, mimeType).value
    ensures api(audio, mimeType).Err? && api(audio, mimeType).thrown.ErrorObject? ==>
      var m := api(audio, mimeType).thrown.message;
      && |r| == |TranscriptionFailedPrefix| + |m|
      && r[..|TranscriptionFailedPrefix|] == TranscriptionFailedPrefix
      && r[|TranscriptionFailedPrefix|..] == m
    ensures api(audio, mimeType) == Err(NonErrorValue) ==> r == TranscriptionUnknownError
  {
    match api(audio, mimeType)
    case Ok(text) => text
    case Err(ErrorObject(message)) => TranscriptionFailedPrefix + message
    case Err(NonErrorValue) => TranscriptionUnknownError
  }

  datatype GroundingMetadata = GroundingMetadata(groundingChunks: Option<seq<GroundingChunk>>)

  datatype Candidate = Candidate(groundingMetadata: Option<GroundingMetadata>)

  /** The parts of a generation response the grounded search reads. */
  datatype GenerateResponse = GenerateResponse(text: string, candidates: Option<seq<Candidate>>)

  datatype GroundedResult = GroundedResult(text: string, chunks: seq<GroundingChunk>)

  /** The first candidate's grounding chunks, if the response carries them all the way down. */
  predicate HasGroundingChunks(response: GenerateResponse)
  {
    && response.candidates.Some?
    && |response.candidates.value| > 0
    && response.candidates.value[0].groundingMetadata.Some?
    && response.candidates.value[0].groundingMetadata.value.groundingChunks.Some?
  }

  /** `candidates?.[0]?.groundingMetadata?.groundingChunks || []`. */
  function ChunksOf(response: GenerateResponse): (chunks: seq<GroundingChunk>)
    ensures !HasGroundingChunks(response) ==> chunks == []
    ensures HasGroundingChunks(response) ==>
      Some(chunks) == response.candidates.value[0].groundingMetadata.value.groundingChunks
  {
    match response.candidates
    case None => []
    case Some(cs) =>
      if |cs| == 0 then []
      else match cs[0].groundingMetadata
        case None => []
        case Some(md) =>
          match md.groundingChunks
          case None => []
          case Some(chunks) => chunks
  }

  /** `getGroundedResponse`: the reply text with its citation chunks; a rejection propagates. */
  function GetGroundedResponse(prompt: string, tool: GroundingTool, api: (string, GroundingTool) -> Result<GenerateResponse>): (r: Result<GroundedResult>)
    ensures api(prompt, tool).Err? ==> r == Err(api(prompt, tool).thrown)
    ensures api(prompt, tool).Ok? ==>
      r.Ok? && r.value.text == api(prompt, tool).value.text
      && (r.value.chunks != [] ==> HasGroundingChunks(api(prompt, tool).value))
      && (HasGroundingChunks(api(prompt, tool).value) ==>
            Some(r.value.chunks) == api(prompt, tool).value.candidates.value[0].groundingMetadata.value.groundingChunks)
  {
    match api(prompt, tool)
    case Err(e) => Err(e)
    case Ok(response) => Ok(GroundedResult(response.text, ChunksOf(response)))
  }
}
