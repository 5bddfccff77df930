/**
 * The query handler: the per-user session table, the fetch-rank-reply routine
 * and the two event handlers (a text message starts a search, the "more_videos"
 * button continues it).
 *
 * The video-search and statistics endpoints are parameters: each is a function
 * from the request the handler sends to the outcome it receives. Every handler
 * returns the list of requests it sent, in order, and the reply it sent.
 */
module Bot {
  import opened Wrappers
  import Text
  import opened Ranking
  import Format

  type UserId = int

  /** What the handler remembers per user: the last query and where its next
      page starts ("" for the first page). */
  datatype Session = Session(query: string, pageToken: string)

  /** The search request asks for this many results per page. */
  const MaxResults := 3
  /** The callback data the "More Videos" button carries. */
  const MoreVideos := "more_videos"
  const NoVideosFound := "No videos found."
  const FetchError := "Error fetching videos. Please try again later."

  datatype SearchRequest = SearchRequest(query: string, pageToken: string, maxResults: nat)

  /** The search call either fails (network or parse error) or yields its items
      (none when the response has no item list) and maybe a next-page token. */
  datatype SearchOutcome =
    | SearchFailed
    | SearchResults(items: seq<SearchItem>, nextPageToken: Option<string>)

  /** The statistics call either fails (network or parse error, or a response
      without an item list) or yields its entries in response order, each with
      its view count when the entry has one. */
  datatype StatsOutcome =
    | StatsFailed
    | Statistics(entries: seq<Option<nat>>)

  datatype Request =
    | Search(search: SearchRequest)
    | VideoStatistics(ids: string)

  /** A plain text reply, or the video listing with its inline keyboard, which
      holds the "More Videos" button or nothing. */
  datatype Reply =
    | Plain(text: string)
    | Listing(text: string, moreVideos: bool)

  /** What one fetch does: the requests it sends, the reply, and the page token
      it stores into the session (None: the session is left as it was). */
  datatype Fetched = Fetched(requests: seq<Request>, reply: Reply, storedToken: Option<string>)

  function VideoIds(items: seq<SearchItem>): (ids: seq<string>)
    ensures |ids| == |items| && forall i :: 0 <= i < |items| ==> ids[i] == items[i].videoId
  {
    seq(|items|, i requires 0 <= i < |items| => items[i].videoId)
  }

  /** The token stored after a listing: the next-page token, or "" without one. */
  function StoredToken(next: Option<string>): string {
    next.GetOr("")
  }

  /** The fetch-rank-reply routine for one session. */
  function Fetch(s: Session, search: SearchRequest -> SearchOutcome,
                 stats: string -> StatsOutcome, year: nat): (f: Fetched)
  {
    var request := SearchRequest(s.query, s.pageToken, MaxResults);
    match search(request)
    case SearchFailed => Fetched([Search(request)], Plain(FetchError), None)
    case SearchResults(items, next) =>
      if |items| == 0 then Fetched([Search(request)], Plain(NoVideosFound), None)
      else
        var ids := Text.JoinComma(VideoIds(items));
        var sent := [Search(request), VideoStatistics(ids)];
        match stats(ids)
        case StatsFailed => Fetched(sent, Plain(FetchError), None)
        case Statistics(entries) =>
          var top := Rank(Join(items, entries));
          if |top| == 0 then Fetched(sent, Plain(NoVideosFound), None)
          else
            var token := StoredToken(next);
            Fetched(sent, Listing(Format.Message(top, year), token != ""), Some(token))
  }

  /** The session after a fetch. */
  function Advance(s: Session, f: Fetched): Session {
    if f.storedToken.Some? then s.(pageToken := f.storedToken.value) else s
  }

  /** Every fetch first searches with the session's query and page token, and
      sends at most one more request. */
  lemma FetchSearchesFirst(s: Session, search: SearchRequest -> SearchOutcome,
                           stats: string -> StatsOutcome, year: nat)
    ensures var f := Fetch(s, search, stats, year);
      && 1 <= |f.requests| <= 2
      && f.requests[0] == Search(SearchRequest(s.query, s.pageToken, MaxResults))
  {
  }

  /** The reply and the stored token go together: a token is stored exactly when
      the listing is sent, the button is there exactly when that token is not
      empty, and every other reply is one of the two fixed texts. */
  lemma FetchReplyShapes(s: Session, search: SearchRequest -> SearchOutcome,
                         stats: string -> StatsOutcome, year: nat)
    ensures var f := Fetch(s, search, stats, year);
      && (f.storedToken.Some? <==> f.reply.Listing?)
      && (f.reply.Listing? ==> (f.reply.moreVideos <==> f.storedToken.value != ""))
      && (f.reply.Plain? ==> f.reply.text == NoVideosFound || f.reply.text == FetchError)
  {
  }

  /** A search without items: "No videos found.", no statistics request, and
      the session keeps its token. */
  lemma FetchNoItems(s: Session, search: SearchRequest -> SearchOutcome,
                     stats: string -> StatsOutcome, year: nat)
    requires var r := search(SearchRequest(s.query, s.pageToken, MaxResults));
      r.SearchResults? && |r.items| == 0
    ensures var f := Fetch(s, search, stats, year);
      && f.reply == Plain(NoVideosFound)
      && f.requests == [Search(SearchRequest(s.query, s.pageToken, MaxResults))]
      && Advance(s, f) == s
  {
  }

  /** A failed call (the search, or the statistics lookup after a search with
      items) gives the generic error reply and leaves the session as it was. */
  lemma FetchFailure(s: Session, search: SearchRequest -> SearchOutcome,
                     stats: string -> StatsOutcome, year: nat)
    requires var r := search(SearchRequest(s.query, s.pageToken, MaxResults));
      r.SearchFailed? || (|r.items| > 0 && stats(Text.JoinComma(VideoIds(r.items))).StatsFailed?)
    ensures var f := Fetch(s, search, stats, year);
      f.reply == Plain(FetchError) && Advance(s, f) == s
  {
  }

  /** A search with items is followed by exactly one statistics request, whose id
      string lists the items' video ids in search order: cutting it at its commas
      gives them back. */
  lemma FetchStatisticsRequest(s: Session, search: SearchRequest -> SearchOutcome,
                               stats: string -> StatsOutcome, year: nat)
    requires var r := search(SearchRequest(s.query, s.pageToken, MaxResults));
      r.SearchResults? && |r.items| > 0
    requires var r := search(SearchRequest(s.query, s.pageToken, MaxResults));
      forall i :: 0 <= i < |r.items| ==> ',' !in r.items[i].videoId
    ensures var r, f := search(SearchRequest(s.query, s.pageToken, MaxResults)), Fetch(s, search, stats, year);
      && |f.requests| == 2
      && f.requests[1].VideoStatistics?
      && Text.Split(f.requests[1].ids) == VideoIds(r.items)
  {
    var r := search(SearchRequest(s.query, s.pageToken, MaxResults));
    Text.SplitJoinComma(VideoIds(r.items));
  }

  /** When both calls succeed the listing is sent: the message of the ranked
      top min(n, 3) videos, which is never empty, so the second "No videos
      found." reply cannot happen; the button is there exactly when the search
      returned a non-empty next-page token, and that token (or "") is stored. */
  lemma FetchListing(s: Session, search: SearchRequest -> SearchOutcome,
                     stats: string -> StatsOutcome, year: nat)
    requires var r := search(SearchRequest(s.query, s.pageToken, MaxResults));
      r.SearchResults? && |r.items| > 0
    requires var r := search(SearchRequest(s.query, s.pageToken, MaxResults));
      stats(Text.JoinComma(VideoIds(r.items))).Statistics?
    ensures
      var r := search(SearchRequest(s.query, s.pageToken, MaxResults));
      var entries := stats(Text.JoinComma(VideoIds(r.items))).entries;
      var top := Rank(Join(r.items, entries));
      var f := Fetch(s, search, stats, year);
      && |top| == Min(|r.items|, TopCount) > 0
      && f.reply == Listing(Format.Message(top, year),
                            r.nextPageToken.Some? && r.nextPageToken.value != "")
      && Advance(s, f) == Session(s.query, if r.nextPageToken.Some? then r.nextPageToken.value else "")
  {
  }

  /** Pagination: after a first page whose listing carries the button, the
      "More Videos" fetch searches the same query from the stored token, which
      differs from the first page's empty token. */
  lemma MoreVideosContinues(query: string, search: SearchRequest -> SearchOutcome,
                            stats: string -> StatsOutcome, year: nat)
    requires var f := Fetch(Session(query, ""), search, stats, year);
      f.reply.Listing? && f.reply.moreVideos
    ensures
      var first := Fetch(Session(query, ""), search, stats, year);
      var second := Fetch(Advance(Session(query, ""), first), search, stats, year);
      var token := first.storedToken.value;
      && token != ""
      && second.requests[0] == Search(SearchRequest(query, token, MaxResults))
      && second.requests[0] != first.requests[0]
  {
  }

  /** What a callback query leads to: nothing for other data; for
      "more_videos", the fetch, or an exception that escapes the handler when the
      user has no session (the session is read before the guarded block). */
  datatype Handled =
    | Ignored
    | Escaped
    | Answered(requests: seq<Request>, reply: Reply)

  /** The bot's state: one session per user who has sent a query. */
  class TeTube {
    var sessions: map<UserId, Session>

    constructor ()
      ensures sessions == map[]
    {
      sessions := map[];
    }

    /** Fetches and sends the next page for `user` from their stored session, and
        on a listing stores the new page token into that session. */
    method FetchAndSend(user: UserId, search: SearchRequest -> SearchOutcome,
                        stats: string -> StatsOutcome, year: nat)
      returns (requests: seq<Request>, reply: Reply)
      requires user in sessions
      modifies this
      ensures var f := Fetch(old(sessions)[user], search, stats, year);
        && requests == f.requests && reply == f.reply
        && sessions == old(sessions)[user := Advance(old(sessions)[user], f)]
    {
      var session := sessions[user];
      var request := SearchRequest(session.query, session.pageToken, MaxResults);
      requests := [Search(request)];
      var data := search(request);
      if data.SearchFailed? {
        reply := Plain(FetchError);
        return;
      }
      var videos := data.items;
      if |videos| == 0 {
        reply := Plain(NoVideosFound);
        return;
      }
      var videoIds := Text.JoinComma(VideoIds(videos));
      requests := requests + [VideoStatistics(videoIds)];
      var statsData := stats(videoIds);
      if statsData.StatsFailed? {
        reply := Plain(FetchError);
        return;
      }
      var sortedVideos := Rank(Join(videos, statsData.entries));
      if |sortedVideos| == 0 {
        reply := Plain(NoVideosFound);
        return;
      }
      var message := Format.ComposeMessage(sortedVideos, year);
      var more := data.nextPageToken.Some? && data.nextPageToken.value != "";
      reply := Listing(message, more);
      sessions := sessions[user := sessions[user].(pageToken := StoredToken(data.nextPageToken))];
    }

    /** A text message starts a new search: the user's session becomes the text
        with an empty token, then the first page is fetched. Other users'
        sessions are untouched. */
    method OnText(user: UserId, text: string, search: SearchRequest -> SearchOutcome,
                  stats: string -> StatsOutcome, year: nat)
      returns (requests: seq<Request>, reply: Reply)
      modifies this
      ensures var f := Fetch(Session(text, ""), search, stats, year);
        && requests == f.requests && reply == f.reply
        && sessions == old(sessions)[user := Advance(Session(text, ""), f)]
    {
      sessions := sessions[user := Session(text, "")];
      requests, reply := FetchAndSend(user, search, stats, year);
    }

    /** A callback query: "more_videos" fetches the next page from the stored
        session; any other data does nothing. */
    method OnCallback(user: UserId, data: string, search: SearchRequest -> SearchOutcome,
                      stats: string -> StatsOutcome, year: nat)
      returns (handled: Handled)
      modifies this
      ensures data != MoreVideos ==> handled == Ignored && sessions == old(sessions)
      ensures data == MoreVideos && user !in old(sessions) ==>
        handled == Escaped && sessions == old(sessions)
      ensures data == MoreVideos && user in old(sessions) ==>
        var f := Fetch(old(sessions)[user], search, stats, year);
        && handled == Answered(f.requests, f.reply)
        && sessions == old(sessions)[user := Advance(old(sessions)[user], f)]
    {
      if data == MoreVideos {
        if user !in sessions {
          handled := Escaped;
          return;
        }
        var requests, reply := FetchAndSend(user, search, stats, year);
        handled := Answered(requests, reply);
      } else {
        handled := Ignored;
      }
    }
  }
}
