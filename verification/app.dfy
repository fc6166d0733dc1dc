/** `App.tsx`: the article list and its handlers.

    Archive marks the articles with a given id as archived; speak reads out the summary of
    the first article with that id, if it has one, and never changes the list.  Processing
    clears the list, runs the pipeline and replaces the list with its result.  Speech
    output itself is not modelled: speak yields the text it would say.
 */
module App {
  import opened Basics
  import opened Types
  import opened RelevanceSort
  import Processing
  import Watchlist

  /** `prev.map(a => a.id === id ? { ...a, status: 'Archived' } : a)`. */
  function Archive(articles: seq<ProcessedArticle>, id: string): (r: seq<ProcessedArticle>)
    ensures |r| == |articles|
    ensures forall i :: 0 <= i < |r| ==> r[i].(status := articles[i].status) == articles[i]
    ensures forall i :: 0 <= i < |r| ==>
      (r[i].status == Archived <==> articles[i].status == Archived || articles[i].id == id)
  {
    seq(|articles|, i requires 0 <= i < |articles| =>
      if articles[i].id == id then articles[i].(status := Archived) else articles[i])
  }

  /** Archiving twice is archiving once; an id no article has changes nothing. */
  lemma ArchiveIdempotent(articles: seq<ProcessedArticle>, id: string)
    ensures Archive(Archive(articles, id), id) == Archive(articles, id)
    ensures (forall i :: 0 <= i < |articles| ==> articles[i].id != id) ==> Archive(articles, id) == articles
  {
  }

  /** `articles.find(a => a.id === id)`. */
  function FindById(articles: seq<ProcessedArticle>, id: string): (r: Option<ProcessedArticle>)
    ensures r.None? <==> forall i :: 0 <= i < |articles| ==> articles[i].id != id
    ensures r.Some? ==> exists i :: (0 <= i < |articles| && articles[i] == r.value && r.value.id == id
      && forall j :: 0 <= j < i ==> articles[j].id != id)
    decreases |articles|
  {
    if |articles| == 0 then None
    else if articles[0].id == id then Some(articles[0])
    else
      var r := FindById(articles[1..], id);
      assert forall i :: 1 <= i < |articles| ==> articles[i] == articles[1..][i - 1];
      assert r.Some? ==> exists i :: (0 <= i < |articles| && articles[i] == r.value && r.value.id == id
        && forall j :: 0 <= j < i ==> articles[j].id != id) by {
        if r.Some? {
          var i :| (0 <= i < |articles[1..]| && articles[1..][i] == r.value && r.value.id == id
            && forall j :: 0 <= j < i ==> articles[1..][j].id != id);
          assert articles[i + 1] == r.value;
        }
      }
      r
  }

  datatype DashboardAction = Speak | ArchiveAction

  /** `handleDashboardAction`: the list afterwards and the text spoken, if any. */
  function HandleDashboardAction(articles: seq<ProcessedArticle>, id: string, action: DashboardAction): (r: (seq<ProcessedArticle>, Option<string>))
    ensures action == Speak ==> r.0 == articles
    ensures action == Speak ==>
      (r.1.Some? <==> FindById(articles, id).Some? && FindById(articles, id).value.summary != "")
    ensures action == Speak && r.1.Some? ==> r.1.value == FindById(articles, id).value.summary
    ensures action == ArchiveAction ==> r == (Archive(articles, id), None)
  {
    match action
    case ArchiveAction => (Archive(articles, id), None)
    case Speak =>
      match FindById(articles, id)
      case Some(a) => if a.summary != "" then (articles, Some(a.summary)) else (articles, None)
      case None => (articles, None)
  }

  datatype AppState = AppState(
    articles: seq<ProcessedArticle>,
    isProcessing: bool,
    status: AppStatus,
    config: Watchlist.WatchlistConfig)

  /** The states the pipeline's status reports produce: `base` with each status in turn. */
  function WithStatuses(base: AppState, statuses: seq<AppStatus>): (r: seq<AppState>)
    ensures |r| == |statuses|
    ensures forall i :: 0 <= i < |r| ==> r[i] == base.(status := statuses[i])
  {
    seq(|statuses|, i requires 0 <= i < |statuses| => base.(status := statuses[i]))
  }

  /** `handleProcessNews`: every state the application passes through, in order.  The
      pipeline does not reject (it catches per article), so the handler's own catch branch
      is never taken. */
  method HandleProcessNews(s: AppState, source: seq<RawArticle>, analyze: Processing.Analyzer)
    returns (trace: seq<AppState>)
    ensures |trace| == |source| + 6
    ensures trace[1].articles == [] && trace[1].isProcessing
    ensures var last := trace[|trace| - 1];
      && last.articles == SortByRelevance(Processing.Collected(source, s.config.companies, s.config.keywords, analyze))
      && !last.isProcessing
      && last.status.progress == 100
    ensures forall i :: 0 <= i < |trace| - 1 ==> trace[i].isProcessing
    ensures forall i :: 1 <= i < |trace| - 1 ==> trace[i].articles == [] || i == |trace| - 2
    ensures forall i :: 0 <= i < |trace| ==> trace[i].config == s.config
    ensures forall i :: 0 <= i < |source| + 2 ==> trace[i + 2].status == Processing.StatusTrace(source)[i]
  {
    var statuses, result := Processing.ProcessNewsFeed(source, s.config.companies, s.config.keywords, analyze);
    assert |statuses| == |source| + 2 && statuses[|statuses| - 1].progress == 100;
    var started := s.(isProcessing := true);
    var cleared := started.(articles := []);
    var progress := WithStatuses(cleared, statuses);
    var done := progress[|progress| - 1].(articles := result);
    var prefix, tail := [started, cleared], [done, done.(isProcessing := false)];
    trace := prefix + progress + tail;
    forall i | 0 <= i < |trace|
      ensures trace[i].config == s.config
      ensures i < |trace| - 1 ==> trace[i].isProcessing
      ensures 1 <= i < |trace| - 2 ==> trace[i].articles == []
      ensures 2 <= i < 2 + |progress| ==> trace[i].status == statuses[i - 2]
    {
      if i < 2 {
        assert trace[i] == prefix[i];
      } else if i < 2 + |progress| {
        assert trace[i] == progress[i - 2];
      } else {
        assert trace[i] == tail[i - 2 - |progress|];
      }
    }
    assert trace[|trace| - 1] == tail[1];
  }
}
