/** `components/GroundingSearch.tsx`: one grounded search and the sources it lists.

    A blank query only sets a validation message.  Otherwise loading starts and the previous
    result and error are cleared; the grounded call then either yields a result or an error
    text (the thrown error's message, or a fixed text for anything that is not an Error).
    The sources listed are, chunk by chunk, the web source or else the maps source, and
    chunks with neither are skipped.
 */
module GroundingSearch {
  import opened Basics
  import opened Text
  import opened Types
  import opened Gemini

  datatype SearchState = SearchState(
    prompt: string,
    tool: GroundingTool,
    result: Option<GroundedResult>,
    isLoading: bool,
    error: string)

  /** One submit: the call made, if any, the state while it is pending, and the final state. */
  datatype SearchRun = SearchRun(call: Option<(string, GroundingTool)>, pending: SearchState, final: SearchState)

  const EmptyQueryError := "Please enter a search query."
  const UnknownError := "An unknown error occurred."

  /** `err instanceof Error ? err.message : 'An unknown error occurred.'`. */
  function ErrorText(t: Thrown): (e: string)
    ensures t.ErrorObject? ==> e == t.message
    ensures t.NonErrorValue? ==> e == UnknownError
  {
    match t
    case ErrorObject(m) => m
    case NonErrorValue => UnknownError
  }

  /** `handleSubmit`. */
  function HandleSubmit(s: SearchState, api: (string, GroundingTool) -> Result<GenerateResponse>): (r: SearchRun)
    ensures AllWhitespace(s.prompt) ==>
      r.call == None && r.pending == r.final == s.(error := EmptyQueryError)
    ensures !AllWhitespace(s.prompt) ==>
      && r.call == Some((s.prompt, s.tool))
      && r.pending == s.(isLoading := true, result := None, error := "")
      && r.final.prompt == s.prompt && r.final.tool == s.tool && !r.final.isLoading
      && (r.final.result.Some? ==> r.final.error == "")
    ensures !AllWhitespace(s.prompt) && api(s.prompt, s.tool).Ok? ==>
      r.final.result == Some(GroundedResult(api(s.prompt, s.tool).value.text, ChunksOf(api(s.prompt, s.tool).value)))
    ensures !AllWhitespace(s.prompt) && api(s.prompt, s.tool).Err? ==>
      r.final.result == None && r.final.error == ErrorText(api(s.prompt, s.tool).thrown)
  {
    if AllWhitespace(s.prompt) then
      var shown := s.(error := EmptyQueryError);
      SearchRun(None, shown, shown)
    else
      var pending := s.(isLoading := true, result := None, error := "");
      var settled := match GetGroundedResponse(s.prompt, s.tool, api)
        case Ok(res) => pending.(result := Some(res))
        case Err(t) => pending.(error := ErrorText(t));
      SearchRun(Some((s.prompt, s.tool)), pending, settled.(isLoading := false))
  }

  /** A failed search always shows an error, unless what was thrown is an Error with an
      empty message: then the error paragraph stays hidden and no result is shown either. */
  lemma FailureShowsError(s: SearchState, api: (string, GroundingTool) -> Result<GenerateResponse>)
    requires !AllWhitespace(s.prompt) && api(s.prompt, s.tool).Err?
    ensures var r := HandleSubmit(s, api);
      r.final.error == "" <==> api(s.prompt, s.tool).thrown == ErrorObject("")
  {
  }

  /** `chunk.web || chunk.maps`. */
  function SourceOf(chunk: GroundingChunk): (r: Option<GroundingChunkSource>)
    ensures chunk.web.Some? ==> r == chunk.web
    ensures chunk.web.None? ==> r == chunk.maps
  {
    if chunk.web.Some? then chunk.web else chunk.maps
  }

  /** The list items rendered under "Sources", in chunk order. */
  function DisplayedSources(chunks: seq<GroundingChunk>): (r: seq<GroundingChunkSource>)
    ensures |r| <= |chunks|
    ensures forall x :: x in r <==> exists i :: 0 <= i < |chunks| && SourceOf(chunks[i]) == Some(x)
    decreases |chunks|
  {
    if |chunks| == 0 then []
    else
      var rest := DisplayedSources(chunks[1..]);
      assert forall i :: 1 <= i < |chunks| ==> chunks[i] == chunks[1..][i - 1];
      assert forall x :: (exists i :: 0 <= i < |chunks[1..]| && SourceOf(chunks[1..][i]) == Some(x)) ==>
        exists i :: 0 <= i < |chunks| && SourceOf(chunks[i]) == Some(x) by {
        forall x | exists i :: 0 <= i < |chunks[1..]| && SourceOf(chunks[1..][i]) == Some(x)
          ensures exists i :: 0 <= i < |chunks| && SourceOf(chunks[i]) == Some(x)
        {
          var i :| 0 <= i < |chunks[1..]| && SourceOf(chunks[1..][i]) == Some(x);
          assert SourceOf(chunks[i + 1]) == Some(x);
        }
      }
      match SourceOf(chunks[0])
      case Some(src) => [src] + rest
      case None => rest
  }

  /** The sources of a concatenation are the two lists' sources in order. */
  lemma {:induction false} DisplayedSourcesAppend(a: seq<GroundingChunk>, b: seq<GroundingChunk>)
    ensures DisplayedSources(a + b) == DisplayedSources(a) + DisplayedSources(b)
    decreases |a|
  {
    if |a| == 0 {
      assert a + b == b;
    } else {
      assert (a + b)[0] == a[0];
      assert (a + b)[1..] == a[1..] + b;
      DisplayedSourcesAppend(a[1..], b);
    }
  }

  /** A single chunk lists its web source, else its maps source, else nothing. */
  lemma DisplayedSourcesSingle(c: GroundingChunk)
    ensures c.web.Some? ==> DisplayedSources([c]) == [c.web.value]
    ensures c.web.None? && c.maps.Some? ==> DisplayedSources([c]) == [c.maps.value]
    ensures c.web.None? && c.maps.None? ==> DisplayedSources([c]) == []
  {
    assert [c][1..] == [];
  }
}
