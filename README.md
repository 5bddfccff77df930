# TeTube query handler, modelled in Dafny

TeTube is a Telegram bot that answers a free-text query with the three YouTube
search results of one page (the search asks for three results in the API's own
order), re-ordered by view count, and offers a "More Videos" button that
fetches the next page of search results. The ordering is per page only: a
later page can hold a video with more views than any on the first. This project models the bot's core in `index.js`:

- the per-user session table `userState` (user id to query and page token), as
  the class `Bot.TeTube` with a `map<UserId, Session>` field that its handlers
  update: a text message resets the user's session, a `more_videos` callback
  continues it, and a successful listing stores the next-page token;
- `fetchAndSendVideos`: search, statistics lookup for the found ids, positional
  join, stable descending sort by view count, cut to three, the numbered reply
  text and the optional button (`Bot.TeTube.FetchAndSend`, specified by the pure
  function `Bot.Fetch`);
- the pure pieces it is built from: the comma-joined id list (`Text`), the join
  and ranking (`Ranking`), and the reply text, which the handler builds with a
  loop (`Format.ComposeMessage`, specified by `Format.Message`).

The two remote calls are parameters: `search` maps the search request (query,
page token, 3 results) to `SearchFailed` or the items with an optional next-page
token; `stats` maps the comma-joined id string to `StatsFailed` or the
statistics entries, each with an optional view count. Each handler returns the
requests it sent, in order, and the reply. The current year for the footer is a
parameter too.

Files: `wrappers.dfy` (Option), `text.dfy`, `ranking.dfy`, `format.dfy`,
`bot.dfy`.

Three behaviours of the code that the model keeps:
- a search call that throws (network or JSON error) is caught at
  `index.js:125-128` and gives the generic "Error fetching videos. Please try
  again later." reply; only a response without items, or with an empty item
  list, gives "No videos found." (`index.js:73-77`);
- the page token is written only after a listing has been sent
  (`index.js:124`): after an empty result or a failure the session is
  untouched, and after the last page the stored token becomes "" again;
- the session is read at `index.js:64`, before the `try`, so a `more_videos`
  callback from a user without a session throws out of the handler with no
  reply (`Handled.Escaped`).

## Model

| member | source | states |
|---|---|---|
| Bot.Fetch | index.js:62-129 | the specification that Bot.TeTube.FetchAndSend is proved against, branch for branch; its cases are stated by FetchSearchesFirst, FetchReplyShapes, FetchNoItems, FetchFailure, FetchStatisticsRequest and FetchListing |
| Bot.Advance | index.js:124 | the session after a fetch: the stored token replaces the page token and the query is kept; unchanged when nothing is stored (FetchNoItems, FetchFailure, FetchListing) |
| Bot.StoredToken | index.js:124 | the next-page token, or "" without one (the fallback to an empty string); FetchListing states the token stored |
| Bot.VideoIds | index.js:80 | one video id per search item, in search order |
| Bot.TeTube.constructor | index.js:19-20 | the bot starts with no sessions |
| Bot.TeTube.OnText | index.js:53-59 | the user's session becomes (text, "") and the first page is fetched from it; the new table is the old one with only that user's entry replaced (by the session advanced by the fetch), so every other user's session is unchanged |
| Bot.TeTube.FetchAndSend | index.js:62-129 | requires the user to have a session (it is read outside the try); sends exactly the requests and the reply `Bot.Fetch` gives for the stored session, and changes only that user's session, only as `Bot.Advance` says |
| Bot.TeTube.OnCallback | index.js:132-136 | data other than "more_videos" does nothing; "more_videos" without a session escapes with no reply and no change; with a session it fetches from the stored query and token exactly as FetchAndSend |
| Bot.FetchSearchesFirst | index.js:64-69 | every fetch first searches with the session's query and page token for 3 results, and sends at most one more request |
| Bot.FetchReplyShapes | index.js:73-128 | a token is stored exactly when the listing is sent; the listing has the "More Videos" button exactly when the stored token is non-empty; any other reply is "No videos found." or the error text |
| Bot.FetchNoItems | index.js:73-77 | a search without items replies "No videos found.", makes no statistics request and leaves the session as it was |
| Bot.FetchFailure | index.js:125-128 | a failed search call, or a failed statistics call after a search with items, replies with the error text and leaves the session as it was |
| Bot.FetchStatisticsRequest | index.js:79-83 | after a search with items exactly one statistics request follows, and cutting its id string at the commas gives back the items' video ids in search order |
| Bot.FetchListing | index.js:86-124 | when both calls succeed the reply is the listing of the ranked videos, of which there are min(n, 3) > 0 (so the second "No videos found." at lines 97-100 cannot happen); the button is present iff the search returned a non-empty next-page token; the session keeps its query and stores that token, or "" |
| Bot.MoreVideosContinues | index.js:113-136 | after a first page whose listing has the button, the next fetch searches the same query from the stored token, which is non-empty and so differs from the first request's cursor |
| Ranking.Join | index.js:89-93 | one video per search item, in search order; item i keeps its id and title and gets the view count of statistics entry i, or 0 when that entry or its count is missing; items past the end of the statistics get 0 and are not dropped |
| Ranking.ViewCountAt | index.js:92 | the count of statistics entry i, or 0 when the entry or its count is missing; Join states it per item |
| Ranking.Rank | index.js:94-95 | the sorted videos cut to min(n, 3) entries; what the list holds is stated by RankSpec and DroppedNotAhead |
| Ranking.Insert | index.js:94 | inserting a position adds exactly that position to the order |
| Ranking.InsertKeepsRanked | index.js:94 | inserting a position larger than all listed ones ahead of the first with fewer views keeps the order ranked (more views first, equal views in search order) |
| Ranking.SortOrder | index.js:94 | the sort order is a permutation of the search positions in which each position comes Before every later one: more views first, equal views in search order (a stable sort) |
| Ranking.RankedOrderUnique | index.js:94 | two ranked orders of the same positions are equal |
| Ranking.StableSortIsSortOrder | index.js:94 | any stable descending sort of the joined videos yields SortOrder, so the result does not depend on the sort algorithm |
| Ranking.RankSpec | index.js:89-95 | the ranked list has min(n, 3) entries, non-empty when n > 0, in non-increasing view count; entry k is the video at search position order[k], distinct positions, equal counts in search order; no dropped video has more views than a kept one |
| Ranking.DroppedNotAhead | index.js:94-95 | any search position not kept has no more views than every kept video |
| Ranking.ThreeVideoRank | index.js:94-95 | three videos with counts c1 > c2 > c0 are listed as the second, the third, the first |
| Ranking.ThreeItemExample | index.js:89-95 | items T1, T2, T3 with counts 100, 300, 200 are listed T2 (300), T3 (200), T1 (100) |
| Text.Decimal | index.js:109 | a number renders as a non-empty string of digits whose first digit is 0 only for the number 0 |
| Text.ParseDecimalOfDecimal | index.js:109 | reading the rendered digits back gives the number |
| Text.DecimalInjective | index.js:109 | distinct view counts and ranks render as distinct strings |
| Text.JoinComma | index.js:80 | `join(',')`: the parts in order with a comma between each two; SplitJoinComma states that the ids can be read back |
| Text.SplitJoinComma | index.js:80 | a non-empty list of comma-free ids joined with "," and cut at the commas gives back the ids, in order |
| Format.Footer | index.js:102-103 | the copyright sign, the given year and the credit "Developed by MEHEDI AL TAYIB"; MessageEndsWithFooter places it |
| Format.Entry | index.js:108-109 | the block of the video at 1-based rank k: "k. title (N views)", a line break, the watch URL with its id, a blank line; EntryInPlace places it |
| Format.Entries | index.js:106-110 | the blocks of all videos numbered from 1 in list order; EntriesPrefix and EntryInPlace state their order |
| Format.Message | index.js:106-111 | the blocks followed by the footer; ComposeMessage is proved to build exactly this |
| Format.ComposeMessage | index.js:105-111 | the loop that appends one block per video and then the footer builds exactly `Format.Message`: for rank k (1-based) "k. title (N views)\n", the watch URL with the video id, "\n\n", in list order, then the footer: the copyright sign, the year and the developer credit |
| Format.EntriesPrefix | index.js:106-110 | the blocks of the first j videos are a prefix of the blocks of all of them |
| Format.EntryInPlace | index.js:106-111 | the text up to and including the block of the video at rank k + 1 is a prefix of the message, so each video's block appears in ranked order |
| Format.MessageEndsWithFooter | index.js:103-111 | the message ends with the footer |

## Left out

- Telegraf setup, command registration, the `/start` and `/about` replies, `bot.launch` and the signal handlers (index.js:1-50, 138-142): messaging transport and static text. The command handlers at index.js:23 and 28 take `/start` and `/about` without passing them on, so Bot.TeTube.OnText models the text handler only for the texts those handlers do not take.
- `fetch` and `response.json()`: network I/O and JSON parsing are the `search` and `stats` parameters. A response without `items` is folded into the outcomes: for the search it reads as no items, and for the statistics it reads as a failure (indexing the missing list throws inside the try).
- The search URL (`encodeURIComponent`, the `part` and `type` parameters, the API key): the request is recorded as its query, page token and result count.
- `new Date().getFullYear()`: the year is a parameter, a non-negative number.
- JavaScript coercion of `viewCount`: the API sends counts as decimal strings. `||` keeps the string as sent (even "0", which is truthy), and the template literal at index.js:109 inserts it as sent; only `-` in the comparator at index.js:94 converts it, to a double, so counts above 2^53 could compare as equal. Counts are modelled as natural numbers, which gives the same output for canonical decimal strings below 2^53.
- Malformed search items: an item without an `id` or `snippet` object makes the access throw (caught, error reply); an item whose `id` has no `videoId` contributes an empty string to the id list at index.js:80 and the link `https://www.youtube.com/watch?v=undefined` at index.js:108, and one whose `snippet` has no `title` shows the text "undefined" at index.js:109. Items are modelled with both fields present.
- Bot.FetchStatisticsRequest: assumes that no video id contains a comma; index.js never checks this, the API's id format guarantees it.
- Console logging; the replies are not awaited, so a failing `ctx.reply` is not caught by the handler and is not modelled.
- Concurrency: handlers run one at a time here. Two races of index.js are not modelled: two quick "More Videos" taps can read the same token and fetch the same page; and since index.js:124 re-reads `userState[userId]` after both awaits, a text message that replaces the entry (index.js:57) while a fetch is in flight gets the old query's next-page token written into its new session. In the model, FetchAndSend writes the token into the session it read.
- What Telegraf does with the exception of `Handled.Escaped` (logging, stopping) is not modelled.
