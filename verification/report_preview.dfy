/** `components/ReportPreview.tsx`: the executive-briefing panel.

    The panel works on the active articles (not archived, relevance above 3).  Whenever the
    article list changes it either clears the summary (no active article, no call) or asks
    the model for a summary of the active articles, showing a fixed text if the call
    rejects.  Download builds the text briefing from the active articles only when a summary
    and at least one active article exist, and names it after the current ISO date.
 */
module ReportPreview {
  import opened Basics
  import opened Types
  import opened Gemini
  import opened PdfReport
  import Processing
  import App

  /** `articles.filter(a => a.status !== 'Archived' && a.relevanceScore > 3)`. */
  function ActiveArticles(articles: seq<ProcessedArticle>): (r: seq<ProcessedArticle>)
    ensures forall x :: x in r <==> x in articles && IsActive(x)
    ensures |r| <= |articles|
    decreases |articles|
  {
    if |articles| == 0 then []
    else
      assert articles == [articles[0]] + articles[1..];
      (if IsActive(articles[0]) then [articles[0]] else []) + ActiveArticles(articles[1..])
  }

  /** The active articles of a concatenation are the two lists' active articles in order. */
  lemma {:induction false} ActiveAppend(a: seq<ProcessedArticle>, b: seq<ProcessedArticle>)
    ensures ActiveArticles(a + b) == ActiveArticles(a) + ActiveArticles(b)
    decreases |a|
  {
    if |a| == 0 {
      assert a + b == b;
    } else {
      assert (a + b)[0] == a[0];
      assert (a + b)[1..] == a[1..] + b;
      ActiveAppend(a[1..], b);
    }
  }

  /** The briefing's sections are exactly the active articles, in order. */
  lemma {:induction false} EntriesAreActiveArticles(articles: seq<ProcessedArticle>, start: nat)
    ensures var es := Entries(articles, start);
      && |es| == |ActiveArticles(articles)|
      && forall k :: 0 <= k < |es| ==> es[k].article == ActiveArticles(articles)[k]
    decreases |articles|
  {
    if |articles| > 0 {
      EntriesAreActiveArticles(articles[1..], start + 1);
    }
  }

  /** A record analysed with the fallback (score 0) never reaches the briefing. */
  lemma FallbackNeverActive(a: RawArticle)
    ensures !IsActive(Processing.Merge(a, Fallback))
  {
  }

  /** Archiving takes the article out of the active set and leaves the other active ones in. */
  lemma ArchiveLeavesActive(articles: seq<ProcessedArticle>, id: string)
    ensures forall x :: x in ActiveArticles(App.Archive(articles, id)) ==> x.id != id && x in ActiveArticles(articles)
    ensures forall x :: x in ActiveArticles(articles) && x.id != id ==> x in ActiveArticles(App.Archive(articles, id))
  {
    var r := App.Archive(articles, id);
    forall x | x in ActiveArticles(r)
      ensures x.id != id && x in ActiveArticles(articles)
    {
      var i :| 0 <= i < |r| && r[i] == x;
      assert r[i].(status := articles[i].status) == articles[i];
    }
    forall x | x in ActiveArticles(articles) && x.id != id
      ensures x in ActiveArticles(r)
    {
      var i :| 0 <= i < |articles| && articles[i] == x;
      assert r[i] == x;
    }
  }

  /** `activeArticles.map(({ title, summary }) => ({ title, summary: summary || '' }))`; the
      summary is always a string here, so `|| ''` keeps it as it is. */
  function ArticleDataOf(active: seq<ProcessedArticle>): (d: seq<ArticleData>)
    ensures |d| == |active|
    ensures forall i :: 0 <= i < |d| ==> d[i].title == active[i].title && d[i].summary == active[i].summary
  {
    seq(|active|, i requires 0 <= i < |active| => ArticleData(active[i].title, active[i].summary))
  }

  datatype PreviewState = PreviewState(summary: string, isLoading: bool)

  /** One run of the summary effect: the request made, if any, and every state it goes through. */
  datatype SummaryRun = SummaryRun(request: Option<seq<ArticleData>>, states: seq<PreviewState>)

  const SummaryFallback := "Could not generate an executive summary."

  /** The effect run when the article list changes. */
  function SummaryEffect(articles: seq<ProcessedArticle>, s: PreviewState, api: string -> Result<string>): (r: SummaryRun)
    ensures r.request.None? <==> ActiveArticles(articles) == []
    ensures r.request.None? ==> r.states == [s.(summary := "")]
    ensures r.request.Some? ==> r.request.value == ArticleDataOf(ActiveArticles(articles))
    ensures r.request.Some? ==>
      var reply := GenerateReportSummary(r.request.value, api);
      && |r.states| == 4
      && r.states[1] == PreviewState("", true)
      && r.states[3] == PreviewState(r.states[2].summary, false)
      && (reply.Ok? ==> r.states[3].summary == reply.value)
      && (reply.Err? ==> r.states[3].summary == SummaryFallback)
  {
    var active := ActiveArticles(articles);
    if |active| > 0 then
      var data := ArticleDataOf(active);
      var loading := s.(isLoading := true);
      var cleared := loading.(summary := "");
      var settled := match GenerateReportSummary(data, api)
        case Ok(text) => cleared.(summary := text)
        case Err(_) => cleared.(summary := SummaryFallback);
      SummaryRun(Some(data), [loading, cleared, settled, settled.(isLoading := false)])
    else
      SummaryRun(None, [s.(summary := "")])
  }

  /** `s.split('T')[0]`: the text before the first `T`, or all of `s` when it has none. */
  function BeforeFirstT(s: string): (r: string)
    ensures r <= s && 'T' !in r
    ensures |r| < |s| ==> s[|r|] == 'T'
    decreases |s|
  {
    if |s| == 0 || s[0] == 'T' then ""
    else
      var rest := BeforeFirstT(s[1..]);
      assert s == [s[0]] + s[1..];
      [s[0]] + rest
  }

  /** The date part of an ISO timestamp `<date>T<time>` is exactly the text before its `T`. */
  lemma {:induction false} BeforeFirstTOfTimestamp(date: string, time: string)
    requires 'T' !in date
    ensures BeforeFirstT(date + "T" + time) == date
  {
    var s := date + "T" + time;
    var r := BeforeFirstT(s);
    assert s[|date|] == 'T';
    assert r == s[..|r|] == date;
  }

  const BriefingPrefix := "Pharma-Intel-Briefing-"

  /** The briefing's download name, built from `new Date().toISOString()`. */
  function BriefingFilename(iso: string): string
  {
    BriefingPrefix + BeforeFirstT(iso) + ".pdf"
  }

  /** An ISO timestamp names the briefing after its date part. */
  lemma BriefingFilenameDate(date: string, time: string)
    requires 'T' !in date
    ensures BriefingFilename(date + "T" + time) == BriefingPrefix + date + ".pdf"
  {
    BeforeFirstTOfTimestamp(date, time);
  }

  datatype BriefingFile = BriefingFile(name: string, content: string)

  /** `handleDownload`: the briefing file, or nothing when there is no summary or no active
      article.  `date` is the report's locale date and `iso` the current ISO timestamp. */
  function HandleDownload(articles: seq<ProcessedArticle>, summary: string, date: string, iso: string): (r: Option<BriefingFile>)
    ensures r.None? <==> summary == "" || ActiveArticles(articles) == []
    ensures r.Some? ==> r.value.content == GeneratePdfReport(ActiveArticles(articles), summary, date)
    ensures r.Some? ==> r.value.name == BriefingFilename(iso)
  {
    if summary == "" || |ActiveArticles(articles)| == 0 then None
    else Some(BriefingFile(BriefingFilename(iso), GeneratePdfReport(ActiveArticles(articles), summary, date)))
  }

  /** Because the preview passes only active articles, the downloaded briefing numbers its
      sections 1..k, one per active article in list order. */
  lemma DownloadNumbersContiguously(articles: seq<ProcessedArticle>)
    ensures var active := ActiveArticles(articles);
      var es := Entries(active, 1);
      && |es| == |active|
      && forall k :: 0 <= k < |es| ==> es[k] == NumberedArticle(k + 1, active[k])
  {
    var active := ActiveArticles(articles);
    forall i | 0 <= i < |active|
      ensures IsActive(active[i])
    {
      assert active[i] in active;
    }
    EntriesOfActiveList(active, 1);
  }
}
