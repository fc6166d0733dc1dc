/** `services/processingService.ts`: the news-processing pipeline.

    For each raw article in order, the pipeline reports progress, asks the analyser for an
    analysis, and on success collects the article merged with it; a rejected analysis is
    skipped.  After a final status line it returns the collected records sorted by
    relevance.  The analyser is a parameter: the one the application wires in,
    `GeminiAnalyzer`, never rejects, which `GeminiKeepsEveryArticle` exploits.
 */
module Processing {
  import opened Basics
  import opened Text
  import opened Types
  import opened RelevanceSort
  import Gemini

  // ---------------------------------------------------------------------------------------
  // The merge `{ ...article, ...analysis, status: 'Processed' }`
  // ---------------------------------------------------------------------------------------

  /** The JSON values the merged records hold. */
  datatype Json = JStr(str: string) | JNum(num: int) | JArray(items: seq<Json>)

  /** A plain JavaScript object, as a map from property name to value. */
  type JsObject = map<string, Json>

  /** Object spread `{ ...base, ...over }`: later properties win. */
  function Spread(base: JsObject, over: JsObject): JsObject
  {
    base + over
  }

  const StatusKey := "status"

  /** `{ ...article, ...analysis, status: 'Processed' }` on arbitrary objects: the status is
      always `'Processed'`, every other analysis property replaces the article's, and the
      article's remaining properties are kept. */
  function MergeObjects(article: JsObject, analysis: JsObject): (r: JsObject)
    ensures r.Keys == article.Keys + analysis.Keys + {StatusKey}
    ensures r[StatusKey] == JStr("Processed")
    ensures forall k :: k in analysis && k != StatusKey ==> r[k] == analysis[k]
    ensures forall k :: k in article && k !in analysis && k != StatusKey ==> r[k] == article[k]
  {
    Spread(Spread(article, analysis), map[StatusKey := JStr("Processed")])
  }

  function StatusJson(s: Status): Json
  {
    match s
    case Processed => JStr("Processed")
    case Archived => JStr("Archived")
  }

  function StringsJson(xs: seq<string>): Json
  {
    JArray(seq(|xs|, i requires 0 <= i < |xs| => JStr(xs[i])))
  }

  function RawObject(a: RawArticle): JsObject
  {
    map[
      "id" := JStr(a.id),
      "title" := JStr(a.title),
      "link" := JStr(a.link),
      "content" := JStr(a.content),
      "companyName" := JStr(a.companyName)]
  }

  function AnalysisObject(x: Analysis): JsObject
  {
    map[
      "summary" := JStr(x.summary),
      "category" := JStr(x.category),
      "subCategory" := JStr(x.subCategory),
      "relevanceScore" := JNum(x.relevanceScore),
      "confidenceScore" := JNum(x.confidenceScore),
      "keywordsMatched" := StringsJson(x.keywordsMatched)]
  }

  function ProcessedObject(p: ProcessedArticle): JsObject
  {
    map[
      "id" := JStr(p.id),
      "title" := JStr(p.title),
      "link" := JStr(p.link),
      "content" := JStr(p.content),
      "companyName" := JStr(p.companyName),
      "summary" := JStr(p.summary),
      "category" := JStr(p.category),
      "subCategory" := JStr(p.subCategory),
      "relevanceScore" := JNum(p.relevanceScore),
      "confidenceScore" := JNum(p.confidenceScore),
      "keywordsMatched" := StringsJson(p.keywordsMatched),
      StatusKey := StatusJson(p.status)]
  }

  /** The typed merge of an article with its analysis. */
  function Merge(a: RawArticle, x: Analysis): (p: ProcessedArticle)
    ensures p.status == Processed && p.id == a.id
    ensures p.title == a.title && p.link == a.link && p.content == a.content && p.companyName == a.companyName
    ensures p.summary == x.summary && p.category == x.category && p.subCategory == x.subCategory
    ensures p.relevanceScore == x.relevanceScore && p.confidenceScore == x.confidenceScore
    ensures p.keywordsMatched == x.keywordsMatched
  {
    ProcessedArticle(
      a.id, a.title, a.link, a.content, a.companyName,
      x.summary, x.category, x.subCategory, x.relevanceScore, x.confidenceScore, x.keywordsMatched,
      Processed)
  }

  /** As an object, the typed merge is exactly the spread. */
  lemma MergeIsSpread(a: RawArticle, x: Analysis)
    ensures ProcessedObject(Merge(a, x)) == MergeObjects(RawObject(a), AnalysisObject(x))
  {
  }

  // ---------------------------------------------------------------------------------------
  // Progress reporting
  // ---------------------------------------------------------------------------------------

  lemma MulMonotone(m: int, a: int, b: int)
    requires m >= 0 && a <= b
    ensures m * a <= m * b
  {
    assert m * b - m * a == m * (b - a);
  }

  lemma MulCancelLess(m: int, a: int, b: int)
    requires m > 0 && m * a < m * b
    ensures a < b
  {
    if a >= b {
      MulMonotone(m, b, a);
      assert false;
    }
  }

  /** `Math.round((i / n) * 100)`: the integer nearest to 100*i/n, halves rounded up. */
  function Progress(i: nat, n: nat): (p: int)
    requires i <= n && n > 0
    ensures 0 <= p <= 100
    ensures 2 * n * p <= 200 * i + n < 2 * n * p + 2 * n
  {
    var q := (200 * i + n) / (2 * n);
    assert 200 * i + n == 2 * n * q + (200 * i + n) % (2 * n);
    assert 2 * n * q <= 200 * i + n < 2 * n * (q + 1);
    MulCancelLess(2 * n, -1, q + 1);
    assert 200 * i + n < 2 * n * 101;
    MulCancelLess(2 * n, q, 101);
    q
  }

  /** The progress line never moves backwards, starts at 0 and reaches 100. */
  lemma ProgressMonotone(i: nat, j: nat, n: nat)
    requires i <= j <= n && n > 0
    ensures Progress(i, n) <= Progress(j, n)
    ensures Progress(0, n) == 0 && Progress(n, n) == 100
  {
    ProgressOrder(i, j, n);
    ProgressEnds(n);
  }

  lemma ProgressOrder(i: nat, j: nat, n: nat)
    requires i <= j <= n && n > 0
    ensures Progress(i, n) <= Progress(j, n)
  {
    var m := 2 * n;
    var p, q := Progress(i, n), Progress(j, n);
    assert m * p <= 200 * i + n <= 200 * j + n < m * q + m;
    assert m * q + m == m * (q + 1);
    MulCancelLess(m, p, q + 1);
  }

  lemma ProgressEnds(n: nat)
    requires n > 0
    ensures Progress(0, n) == 0 && Progress(n, n) == 100
  {
    var m := 2 * n;
    var z := Progress(0, n);
    assert m * z <= n < m * 1;
    MulCancelLess(m, z, 1);
    var h := Progress(n, n);
    assert m * h <= 201 * n < m * 101;
    MulCancelLess(m, h, 101);
    assert m * 100 < 201 * n < m * h + m;
    assert m * h + m == m * (h + 1);
    MulCancelLess(m, 100, h + 1);
  }

  const StartMessage := "Starting news feed processing..."
  const CompleteMessage := "Processing complete. All articles analyzed."

  function AnalyzingMessage(i: nat, n: nat, title: string): string
  {
    "Analyzing article " + NatToString(i + 1) + " of " + NatToString(n) + ": \"" + title + "\""
  }

  /** The status line emitted before article `i` of `articles`. */
  function ArticleStatus(articles: seq<RawArticle>, i: nat): AppStatus
    requires i < |articles|
  {
    AppStatus(AnalyzingMessage(i, |articles|, articles[i].title), Progress(i, |articles|))
  }

  /** Every status update of one run, in order. */
  function StatusTrace(articles: seq<RawArticle>): (t: seq<AppStatus>)
    ensures |t| == |articles| + 2
    ensures t[0] == AppStatus(StartMessage, 0) && t[|t| - 1] == AppStatus(CompleteMessage, 100)
    ensures forall i :: 0 <= i < |articles| ==> t[i + 1] == ArticleStatus(articles, i)
  {
    [AppStatus(StartMessage, 0)] + ArticleStatuses(articles, |articles|) + [AppStatus(CompleteMessage, 100)]
  }

  /** The per-article updates for the first `n` articles. */
  function ArticleStatuses(articles: seq<RawArticle>, n: nat): (r: seq<AppStatus>)
    requires n <= |articles|
    ensures |r| == n
    ensures forall k :: 0 <= k < n ==> r[k] == ArticleStatus(articles, k)
  {
    seq(n, k requires 0 <= k < n => ArticleStatus(articles, k))
  }

  lemma ArticleStatusesSnoc(articles: seq<RawArticle>, n: nat)
    requires n < |articles|
    ensures ArticleStatuses(articles, n + 1) == ArticleStatuses(articles, n) + [ArticleStatus(articles, n)]
  {
  }

  /** There are N+2 updates, starting at 0, ending at 100, all within [0, 100] and never
      decreasing. */
  lemma StatusTraceShape(articles: seq<RawArticle>)
    ensures var t := StatusTrace(articles);
      && |t| == |articles| + 2
      && t[0].progress == 0 && t[|t| - 1].progress == 100
      && (forall i :: 0 <= i < |t| ==> 0 <= t[i].progress <= 100)
      && (forall i, j :: 0 <= i <= j < |t| ==> t[i].progress <= t[j].progress)
  {
    var t := StatusTrace(articles);
    var n := |articles|;
    assert forall i :: 1 <= i <= n ==> t[i] == ArticleStatus(articles, i - 1);
    forall i, j | 0 <= i <= j < |t|
      ensures t[i].progress <= t[j].progress
    {
      if 1 <= i && j <= n {
        ProgressMonotone(i - 1, j - 1, n);
      }
    }
  }

  // ---------------------------------------------------------------------------------------
  // The pipeline
  // ---------------------------------------------------------------------------------------

  /** The analysis call: title, content and the two watch-lists; it may reject. */
  type Analyzer = (string, string, seq<string>, seq<string>) -> Result<Analysis>

  function AnalyzeArticle(a: RawArticle, companies: seq<string>, keywords: seq<string>, analyze: Analyzer): Result<Analysis>
  {
    analyze(a.title, a.content, companies, keywords)
  }

  /** What one iteration pushes: the merged record if the analysis resolved, nothing if it
      rejected. */
  function Contribution(a: RawArticle, companies: seq<string>, keywords: seq<string>, analyze: Analyzer): (r: seq<ProcessedArticle>)
    ensures |r| <= 1
    ensures forall p :: p in r ==> p.status == Processed
  {
    match AnalyzeArticle(a, companies, keywords, analyze)
    case Ok(x) => [Merge(a, x)]
    case Err(_) => []
  }

  /** The records the loop pushes, in processing order: one merged record per article whose
      analysis resolved. */
  function Collected(articles: seq<RawArticle>, companies: seq<string>, keywords: seq<string>, analyze: Analyzer): (r: seq<ProcessedArticle>)
    ensures |r| <= |articles|
    ensures forall p :: p in r ==> p.status == Processed
    decreases |articles|
  {
    if |articles| == 0 then []
    else Contribution(articles[0], companies, keywords, analyze) + Collected(articles[1..], companies, keywords, analyze)
  }

  /** `processNewsFeed`, with the article source and the analyser as parameters. */
  method ProcessNewsFeed(articles: seq<RawArticle>, companies: seq<string>, keywords: seq<string>, analyze: Analyzer)
    returns (statuses: seq<AppStatus>, result: seq<ProcessedArticle>)
    ensures statuses == StatusTrace(articles)
    ensures result == SortByRelevance(Collected(articles, companies, keywords, analyze))
    ensures |result| <= |articles|
    ensures forall p :: p in result ==> p.status == Processed
  {
    var processed;
    statuses, processed := AnalyzeEach(articles, companies, keywords, analyze);
    statuses := statuses + [AppStatus(CompleteMessage, 100)];
    result := SortByRelevance(processed);
    assert |result| == |processed| by {
      assert |multiset(result)| == |multiset(processed)|;
    }
    forall p | p in result
      ensures p.status == Processed
    {
      assert p in multiset(result);
      assert p in processed;
    }
  }

  /** The pipeline's loop: the start update, one update per article, and the records pushed. */
  method AnalyzeEach(articles: seq<RawArticle>, companies: seq<string>, keywords: seq<string>, analyze: Analyzer)
    returns (statuses: seq<AppStatus>, processed: seq<ProcessedArticle>)
    ensures statuses == [AppStatus(StartMessage, 0)] + ArticleStatuses(articles, |articles|)
    ensures processed == Collected(articles, companies, keywords, analyze)
  {
    processed := [];
    statuses := [AppStatus(StartMessage, 0)];
    var i := 0;
    while i < |articles|
      invariant 0 <= i <= |articles|
      invariant statuses == [AppStatus(StartMessage, 0)] + ArticleStatuses(articles, i)
      invariant processed == Collected(articles[..i], companies, keywords, analyze)
    {
      var article := articles[i];
      statuses := statuses + [ArticleStatus(articles, i)];
      ArticleStatusesSnoc(articles, i);
      assert articles[..i + 1] == articles[..i] + [article];
      CollectedSnoc(articles[..i], article, companies, keywords, analyze);
      processed := processed + Contribution(article, companies, keywords, analyze);
      i := i + 1;
    }
    assert articles[..i] == articles;
  }

  // ---------------------------------------------------------------------------------------
  // Properties of a run
  // ---------------------------------------------------------------------------------------

  /** Processing two batches one after the other collects the two results in order. */
  lemma {:induction false} CollectedAppend(a: seq<RawArticle>, b: seq<RawArticle>, companies: seq<string>, keywords: seq<string>, analyze: Analyzer)
    ensures Collected(a + b, companies, keywords, analyze)
      == Collected(a, companies, keywords, analyze) + Collected(b, companies, keywords, analyze)
    decreases |a|
  {
    if |a| == 0 {
      assert a + b == b;
    } else {
      assert (a + b)[0] == a[0];
      assert (a + b)[1..] == a[1..] + b;
      CollectedAppend(a[1..], b, companies, keywords, analyze);
    }
  }

  /** One more article adds its own contribution at the end. */
  lemma CollectedSnoc(init: seq<RawArticle>, last: RawArticle, companies: seq<string>, keywords: seq<string>, analyze: Analyzer)
    ensures Collected(init + [last], companies, keywords, analyze)
      == Collected(init, companies, keywords, analyze) + Contribution(last, companies, keywords, analyze)
  {
    CollectedAppend(init, [last], companies, keywords, analyze);
    assert [last][1..] == [];
  }

  /** With an analyser that always resolves, record `i` is article `i` merged with its
      analysis: nothing is dropped and the processing order is the input order. */
  lemma {:induction false} CollectedWhenAllResolve(articles: seq<RawArticle>, companies: seq<string>, keywords: seq<string>, analyze: Analyzer)
    requires forall i :: 0 <= i < |articles| ==> AnalyzeArticle(articles[i], companies, keywords, analyze).Ok?
    ensures var r := Collected(articles, companies, keywords, analyze);
      && |r| == |articles|
      && forall i :: 0 <= i < |articles| ==>
           r[i] == Merge(articles[i], AnalyzeArticle(articles[i], companies, keywords, analyze).value)
    decreases |articles|
  {
    if |articles| > 0 {
      var tail := articles[1..];
      assert forall i :: 0 <= i < |tail| ==> tail[i] == articles[i + 1];
      CollectedWhenAllResolve(tail, companies, keywords, analyze);
      var rest := Collected(tail, companies, keywords, analyze);
      var x := AnalyzeArticle(articles[0], companies, keywords, analyze).value;
      var r := Collected(articles, companies, keywords, analyze);
      assert r == [Merge(articles[0], x)] + rest;
      forall i | 0 < i < |articles|
        ensures r[i] == Merge(articles[i], AnalyzeArticle(articles[i], companies, keywords, analyze).value)
      {
        assert r[i] == rest[i - 1] && tail[i - 1] == articles[i];
      }
    }
  }

  /** A rejected analysis drops exactly that article; the articles after it are still
      processed. */
  lemma CollectedSkipsFailure(articles: seq<RawArticle>, k: nat, companies: seq<string>, keywords: seq<string>, analyze: Analyzer)
    requires k < |articles|
    requires AnalyzeArticle(articles[k], companies, keywords, analyze).Err?
    ensures Collected(articles, companies, keywords, analyze)
      == Collected(articles[..k], companies, keywords, analyze) + Collected(articles[k + 1..], companies, keywords, analyze)
  {
    var a, b := articles[..k], articles[k + 1..];
    var upto := a + [articles[k]];
    assert articles == upto + b;
    CollectedSnoc(a, articles[k], companies, keywords, analyze);
    assert Contribution(articles[k], companies, keywords, analyze) == [];
    var ca := Collected(a, companies, keywords, analyze);
    assert Collected(upto, companies, keywords, analyze) == ca + [] == ca;
    CollectedAppend(upto, b, companies, keywords, analyze);
  }

  /** Every collected record comes from an article whose analysis resolved. */
  lemma {:induction false} CollectedFromResolved(articles: seq<RawArticle>, companies: seq<string>, keywords: seq<string>, analyze: Analyzer, p: ProcessedArticle)
    requires p in Collected(articles, companies, keywords, analyze)
    ensures exists i :: (0 <= i < |articles| && articles[i].id == p.id
      && AnalyzeArticle(articles[i], companies, keywords, analyze).Ok?)
    decreases |articles|
  {
    var tail := articles[1..];
    if p in Collected(tail, companies, keywords, analyze) {
      CollectedFromResolved(tail, companies, keywords, analyze, p);
      var i :| 0 <= i < |tail| && tail[i].id == p.id && AnalyzeArticle(tail[i], companies, keywords, analyze).Ok?;
      assert articles[i + 1] == tail[i];
    } else {
      assert articles[0].id == p.id;
    }
  }

  predicate UniqueIds(articles: seq<RawArticle>)
  {
    forall i, j :: 0 <= i < j < |articles| ==> articles[i].id != articles[j].id
  }

  /** With distinct ids, an article whose analysis rejected is absent from the sorted output. */
  lemma FailedArticleAbsent(articles: seq<RawArticle>, k: nat, companies: seq<string>, keywords: seq<string>, analyze: Analyzer)
    requires UniqueIds(articles) && k < |articles|
    requires AnalyzeArticle(articles[k], companies, keywords, analyze).Err?
    ensures forall p :: p in SortByRelevance(Collected(articles, companies, keywords, analyze)) ==> p.id != articles[k].id
  {
    var c := Collected(articles, companies, keywords, analyze);
    forall p | p in SortByRelevance(c)
      ensures p.id != articles[k].id
    {
      assert p in multiset(SortByRelevance(c));
      assert p in c;
      CollectedFromResolved(articles, companies, keywords, analyze, p);
    }
  }

  /** The returned list is the collected records reordered: same records, highest relevance
      first, and records of equal relevance in processing order. */
  lemma OutputOrder(articles: seq<RawArticle>, companies: seq<string>, keywords: seq<string>, analyze: Analyzer)
    ensures var c := Collected(articles, companies, keywords, analyze);
      var out := SortByRelevance(c);
      && multiset(out) == multiset(c)
      && NonIncreasing(out)
      && SameOrderPerScore(out, c)
  {
    SortIsStable(Collected(articles, companies, keywords, analyze));
  }

  /** The analyser the application uses: the hosted-model classification, which never rejects. */
  function GeminiAnalyzer(api: Gemini.AnalysisPrompt -> Result<string>, parse: string -> Option<Analysis>): (r: Analyzer)
    ensures forall title, content, companies, keywords :: r(title, content, companies, keywords).Ok?
  {
    (title: string, content: string, companies: seq<string>, keywords: seq<string>) =>
      Ok(Gemini.SummarizeAndCategorizeArticle(title, content, companies, keywords, api, parse))
  }

  /** With the application's analyser no article is dropped: a failed call only contributes
      the fallback record, whose relevance score 0 sorts it below every positive score. */
  lemma GeminiKeepsEveryArticle(articles: seq<RawArticle>, companies: seq<string>, keywords: seq<string>,
                                api: Gemini.AnalysisPrompt -> Result<string>, parse: string -> Option<Analysis>)
    ensures var c := Collected(articles, companies, keywords, GeminiAnalyzer(api, parse));
      && |c| == |articles|
      && |SortByRelevance(c)| == |articles|
      && forall i :: 0 <= i < |articles| ==> c[i].id == articles[i].id && c[i].title == articles[i].title
  {
    CollectedWhenAllResolve(articles, companies, keywords, GeminiAnalyzer(api, parse));
    var c := Collected(articles, companies, keywords, GeminiAnalyzer(api, parse));
    assert |multiset(SortByRelevance(c))| == |multiset(c)|;
  }
}
