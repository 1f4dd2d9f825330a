# GetYouTubeStats in Dafny

GetYouTubeStats is a console program that reads one YouTube playlist through the
YouTube Data API v3 and prints a CSV report of its videos. `Main` does the work in
four steps:

1. It reads the API key from the user secrets. A missing or empty key ends the run with exit code 1.
2. It lists the playlist page by page. Each request uses the `nextPageToken` of the previous page, and the listing stops at the first page without a token.
3. It fetches the details of every listed video, one request per item, in list order.
4. It prints a header line, then one row per video. A row is six double-quoted fields joined by commas.

A null page or a null video detail ends the run with exit code 1. The code does not catch any exception.

This project models that core as follows:

| module (file) | what it holds |
|---|---|
| `Wrappers` (`wrappers.dfy`) | `Option` for C# nulls, `Result` for calls that can fail |
| `Runtime` (`runtime.dfy`) | the exceptions the modelled code can raise, and `string.IsNullOrEmpty` |
| `Numbers` (`numbers.dfy`) | `int` as a 32-bit subset type |
| `Api` (`api.dfy`) | the decoded responses, and the program's `VideoDetail` record |
| `Urls` (`urls.dfy`) | the two request URLs, and the request parameters each URL carries |
| `Listing` (`listing.dfy`) | the page loop, as a method with a step semantics it is proved against |
| `Aborts` (`aborts.dfy`) | the ways a run ends without a report |
| `Details` (`details.dfy`) | the detail loop, as a method proved against a recursive specification function |
| `Csv` (`csv.dfy`) | the report lines, and a reader of quoted rows used as the partner of the writer |
| `Program` (`program.dfy`) | `GetPlaylistPage`, `GetVideoDetails`, and the whole run |

`Numbers` also holds `int.Parse` and `int.ToString` for the invariant culture.

The two HTTP endpoints are parameters of `Program.Run`. Each is a function from a request to the decoded response. `None` stands for a status code outside the success range; `GetPlaylistPage` and `GetVideoDetails` turn that into `null`. A request holds the parameters of one URL:

- a `PageRequest` holds the key, the playlist and the page token;
- a `VideosRequest` holds the video id and the key.

`Urls.PlaylistItemsUrlIdentifiesRequest` and `Urls.VideoDetailsUrlIdentifiesId` prove the equivalence. For the program's fixed key and playlist, two URLs are equal exactly when their requests are equal. So an endpoint keyed by request answers exactly as one keyed by URL text.

The page loop and the detail loop are generic. They take `GetPlaylistPage` or `GetVideoDetails` with the client and key fixed, as a function value (`Program.PageSourceOf`, `Program.DetailSourceOf`).

The page loop only ends if the endpoint stops handing out tokens or returns a null page. `Listing.ListingEnds` states that assumption, and `Listing.CollectPlaylist` and `Program.Run` require it.

## Model

| member | source | states |
|---|---|---|
| Urls.PlaylistItemsUrl | GetYouTubeStats/Program.cs:122-126 | the URL starts with the fixed part (endpoint, `maxResults=50`, playlist, key); it gets a suffix exactly when the token is neither null nor empty, and the suffix is `&pageToken=` followed by the token |
| Urls.PageRequestFor | GetYouTubeStats/Program.cs:120-126 | a null and an empty token both ask for the first page; any other token is sent as it is, with the given key and playlist |
| Urls.VideoDetailsUrl | GetYouTubeStats/Program.cs:100 | the URL is the videos endpoint (snippet and statistics parts), then the id, then `&key=` and the key, with nothing else added |
| Urls.PlaylistItemsUrlIdentifiesRequest | GetYouTubeStats/Program.cs:122-126 | for one key and playlist, two page URLs are equal if and only if they ask for the same page |
| Urls.VideoDetailsUrlIdentifiesId | GetYouTubeStats/Program.cs:100 | for one key, two detail URLs are equal if and only if their video ids are equal |
| Numbers.ToInvariantString | GetYouTubeStats/Program.cs:75-77 | a counter renders as a non-empty text of decimal digits, with a leading minus sign exactly for a negative value, and in its shortest form: no leading zero unless the value is 0 |
| Numbers.ParseInt32 | GetYouTubeStats/Program.cs:113-115 | parsing raises `ArgumentNullException` exactly when the text is null |
| Numbers.ParseRendersBack | GetYouTubeStats/Program.cs:113-115 | every 32-bit value parses back from its invariant rendering: `int.Parse(n.ToString()) == n` |
| Numbers.NonNumericIsFormatError | GetYouTubeStats/Program.cs:113-115 | a text without a digit raises a format error; it never reads as a number |
| Numbers.ParseInt32Max | GetYouTubeStats/Program.cs:113-115 | `"2147483647"` parses to `int.MaxValue`, and that value renders back to the same text |
| Numbers.ParseInt32AboveMax | GetYouTubeStats/Program.cs:113-115 | any unsigned decimal text whose value exceeds `int.MaxValue` raises an overflow instead of wrapping around |
| Numbers.ParseInt32Overflow | GetYouTubeStats/Program.cs:113-115 | `"2147483648"` raises an overflow instead of wrapping around |
| Program.GetPlaylistPageFollowsUrl | GetYouTubeStats/Program.cs:120-136 | `GetPlaylistPage` returns the same page for two tokens that build the same URL: the answer depends on the URL requested and nothing else |
| Program.GetVideoDetailsOutcome | GetYouTubeStats/Program.cs:98-118 | `GetVideoDetails`: the call is null exactly when the response is null; it gives a detail exactly when the response has an element whose three counts all parse; that detail carries the first element's id, title and date and the parsed likes, views and comments |
| Program.ViewCountAboveInt32Raises | GetYouTubeStats/Program.cs:114 | once the like count has parsed, any all-digit view count above `int.MaxValue` makes `GetVideoDetails` raise an overflow |
| Listing.Step | GetYouTubeStats/Program.cs:41-50 | one pass of the loop: a finished state stays as it is; a paging state fails exactly on a null page; otherwise the new items are the items so far followed by the page's items, the loop finishes exactly when the page's `nextPageToken` is null or empty, and otherwise pages on with that token |
| Listing.WalkAfter | GetYouTubeStats/Program.cs:37-50 | the loop starts with a null token and no items, and every request after the first carries a token that is neither null nor empty |
| Listing.CollectPlaylist | GetYouTubeStats/Program.cs:36-50 | the loop makes requests until the step semantics first leaves the paging state; request `j` carries the step semantics' token `j`; the result is the accumulated items after a page without a token, and nothing after a null page |
| Listing.FinishedStaysFinished | GetYouTubeStats/Program.cs:39-50 | once the loop has left, no later state differs |
| Listing.StopIndexUnique | GetYouTubeStats/Program.cs:39-50 | the loop leaves at one request count only |
| Listing.FinalWalk | GetYouTubeStats/Program.cs:39-50 | the final state is a state the loop reaches, and it is not a paging state |
| Listing.FinalWalkIs | GetYouTubeStats/Program.cs:39-50 | any non-paging state the loop reaches is the final state |
| Listing.NextRequestCarriesReturnedToken | GetYouTubeStats/Program.cs:41-50 | each request after the first carries the `nextPageToken` of the page the previous request returned, and that token was neither null nor empty |
| Listing.WalkFollowsPages | GetYouTubeStats/Program.cs:39-50 | after one request per served page that hands out a token, the loop is still paging, with the last token and the pages' items concatenated in page order |
| Listing.ListingComplete | GetYouTubeStats/Program.cs:37-50 | with `k` pages that hand out a token and then a last page without one, the loop makes exactly `k + 1` requests and returns every page's items in page order |
| Listing.ListingFailsFast | GetYouTubeStats/Program.cs:41-46 | a null page after `k` good pages ends the loop right after request `k + 1`, with no items, not with the items collected so far |
| Details.Abandon | GetYouTubeStats/Program.cs:59-62 | a null detail aborts as "video unavailable" with the playlist item's own id; an exception aborts as that exception |
| Details.FetchAll | GetYouTubeStats/Program.cs:56-65 | a successful loop gives one detail per item, in item order, each being that item's call result; a failed loop aborts only as "video unavailable" or as an escaping exception |
| Details.FetchAllSucceeds | GetYouTubeStats/Program.cs:56-65 | the loop succeeds if and only if every item's call produces a detail |
| Details.FetchAllStopsAtFirstFailure | GetYouTubeStats/Program.cs:56-65 | the first item whose call fails decides the abort, whatever follows it |
| Details.FetchAllOfDetails | GetYouTubeStats/Program.cs:56-65 | when every call produces a detail, the result is exactly those details in item order |
| Details.CollectDetails | GetYouTubeStats/Program.cs:54-65 | the loop's result is `FetchAll`; it requests one id per item in item order; it requests all of them on success, and on failure every request before the last succeeded and the last one is the one that failed, so nothing is requested after the first failure |
| Details.DuplicatesKept | GetYouTubeStats/Program.cs:56-65 | a video listed twice is fetched for both places and reported at both |
| Csv.Quote | GetYouTubeStats/Program.cs:80 | a field is written between two double quotes, unchanged and unescaped |
| Csv.Fields | GetYouTubeStats/Program.cs:72-79 | a row has six fields, the first being the watch URL of the video |
| Csv.Rows | GetYouTubeStats/Program.cs:68-81 | one row per detail, row `i` for detail `i` |
| Csv.Report | GetYouTubeStats/Program.cs:67-81 | the report is the header line followed by exactly one row per detail, in order |
| Csv.WriteReport | GetYouTubeStats/Program.cs:67-81 | the printing loop writes exactly `Report` |
| Csv.ParseQuoted | GetYouTubeStats/Program.cs:71-80 | reading a line of quoted fields yields at least one field, none of which holds a double quote |
| Csv.JoinQuotedRoundTrip | GetYouTubeStats/Program.cs:71-80 | `JoinQuoted`, quoting and joining fields without a double quote, reads back as the same fields |
| Csv.NoQuoteInCount | GetYouTubeStats/Program.cs:75-77 | a rendered count never holds a double quote |
| Csv.QuoteFreeFields | GetYouTubeStats/Program.cs:72-79 | the six fields of a row are free of double quotes exactly when the id, the title and the date text are |
| Csv.RowReadsBack | GetYouTubeStats/Program.cs:70-80 | `Row`: a row reads back as its six fields if and only if the id, the title and the date text hold no double quote, because nothing is escaped |
| Csv.RowStartsWithWatchUrl | GetYouTubeStats/Program.cs:73 | every `Row` starts with the quoted watch URL of its video and a comma |
| Program.RunResult | GetYouTubeStats/Program.cs:21-86 | the run's outcome: it aborts for a missing secret exactly when the secret is null or empty, and as "playlist unavailable" exactly when the secret is present and a page comes back null; a report starts with the header line |
| Program.ReportCoversEveryItem | GetYouTubeStats/Program.cs:36-81 | a run that ends with a report has listed the playlist completely; it has the header and then one row per listed item, in list order, each built from that item's detail |
| Program.NoPartialReport | GetYouTubeStats/Program.cs:56-65 | once the playlist is listed, a single failed detail call ends the run without a report |
| Program.Run | GetYouTubeStats/Program.cs:21-86 | the run ends as follows: a missing secret aborts; a null page aborts without a report; the first failed detail call decides the abort; otherwise the report is produced from every listed item |

## Left out

- HTTP, status codes and JSON decoding are not modelled: each endpoint is a function from request parameters to a decoded response or `None`.
- Transport and decoding failures are not modelled: in the program, `http.GetAsync` can raise `HttpRequestException` or `TaskCanceledException` on a time-out (Program.cs:101, 127), and `JsonSerializer.Deserialize` can raise `JsonException` on a malformed body (Program.cs:108, 134), all escaping `Main`; in the model an endpoint only answers or returns `None`, so these cannot arise and `Abort.Unhandled` carries only the index and `int.Parse` exceptions.
- Asynchrony (`async`/`await`) is not modelled; the calls run one after another, as the awaits make them.
- Reading the user secret is not modelled: the secret is a parameter of `Program.Run`.
- Console output is not modelled. The progress and error messages are omitted, and the report is returned as a list of lines. The final `Console.ReadLine` is omitted.
- Exit codes are not modelled: `Abort` tells the three `return 1` paths apart from an escaping exception.
- `DateTime.ToString(CultureInfo.InvariantCulture)` is not modelled: the date text is the function parameter `showDate`, and a `DateTime` is kept as its tick count.
- Null members of a decoded response are not modelled: `items`, `contentDetails`, `snippet` and `statistics` are always present, and the deserialiser never returns `null`. In the program, a null here would raise a null-reference or argument-null exception.
- Numbers.ParseInt32: covers the default integer style with the invariant culture only: white space, one sign and decimal digits. It omits the trailing null characters .NET also accepts.
- Listing.CollectPlaylist: requires that the endpoint eventually stops handing out tokens (`Listing.ListingEnds`). The program itself loops forever otherwise, and a loop that does not terminate has no final state to state a result about.
- Program.Run: requires the same for the run's key and playlist, for the same reason.
