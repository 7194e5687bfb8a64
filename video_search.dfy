/** The search endpoint of the web application: it wraps the user's query
    in parentheses, narrows it to one video when asked, and forwards it with
    the language to the search function. */
module VideoSearch {
  import opened Wrappers
  import opened Text

  /** The query parameters: `q`, an optional `video_id`, and `lang`. */
  datatype SearchRequest = SearchRequest(query: string, videoId: Option<string>, lang: string)

  /** The JSON payload sent to the search function. */
  datatype SearchPayload = SearchPayload(lang: string, query: string)

  /** The query the search function receives. */
  function QueryText(query: string, videoId: Option<string>): string
  {
    "(" + query + ")" + (match videoId case None => "" case Some(v) => " AND " + v)
  }

  /** Builds the query as the handler does, by appending to a string, and
      forwards the language unchanged. */
  method ComposePayload(req: SearchRequest) returns (payload: SearchPayload)
    ensures payload.lang == req.lang
    ensures payload.query == QueryText(req.query, req.videoId)
    ensures |payload.query| == |req.query| + 2 + (if req.videoId.Some? then 5 + |req.videoId.value| else 0)
  {
    var query := "(" + req.query + ")";
    if req.videoId.Some? {
      query := query + " AND ";
      query := query + req.videoId.value;
    }
    payload := SearchPayload(req.lang, query);
  }

  /** Reads a composed query back into the user's text and the video id. */
  function ParseQuery(text: string): Option<(string, Option<string>)>
  {
    if |text| < 2 || text[0] != '(' then None
    else match SplitOnce(text[1..], ')')
      case None => None
      case Some((query, rest)) =>
        if rest == [] then Some((query, None))
        else if |rest| >= 5 && rest[..5] == " AND " then Some((query, Some(rest[5..])))
        else None
  }

  /** A query text without `)` is recovered exactly, with the video id. */
  lemma QueryRoundTrip(query: string, videoId: Option<string>)
    requires ')' !in query
    ensures ParseQuery(QueryText(query, videoId)) == Some((query, videoId))
  {
    var rest := match videoId case None => "" case Some(v) => " AND " + v;
    var text := QueryText(query, videoId);
    assert text[1..] == query + [')'] + rest;
    IndexOfAfter(query, ')', rest);
    assert text[1..][..|query|] == query && text[1..][|query| + 1..] == rest;
    if videoId.Some? {
      assert rest[..5] == " AND " && rest[5..] == videoId.value;
    }
  }

  /** The user's text is inserted as it is: a query that closes the
      parenthesis itself can look exactly like a filtered one, so the text
      alone does not tell whether a video filter was asked for. */
  lemma QueryNotEscaped()
    ensures QueryText("a) AND (b", None) == QueryText("a", Some("(b)"))
  {
  }
}
