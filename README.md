# py101ru in Dafny

A model of the data pipeline of `py101ru.py`, a script that builds an M3U
playlist of the working internet-radio channels of one genre on 101.ru.
The script reads the genre listing page, lets the user pick a genre, reads
that genre's page for the station links, asks the 101.ru API about each
station, keeps the stations the API reports live, probes each live
channel's stream URLs in order and writes the first one that answers 200
into the playlist.

Everything between the network calls is modelled. The network, the HTML
parser and the JSON decoder are parameters:

- a page fetch is its HTTP status plus the `(text, href)` pairs the CSS
  selector matched, in document order (`Catalog.Anchor`);
- the API is `fetch: string -> Page` (the `(code, data)` pair of
  `get_page`, which gives any HTTP status it receives, and 404 when no response arrives) and `parse: string -> Option<Json>`
  (`json.loads`, `None` for a body it rejects);
- a stream probe is `probe: string -> int`, the status `get_page(s, False)` returns;
- the playlist file is the string written to it.

Modules, one per stage of the script:

- `wrappers.dfy` — `Option` (Python's `None`) and `Result` (a value or the exception raised).
- `http.dfy` — the status the script compares against (200) and the one `get_page` starts from when no response arrives (404).
- `pytext.dfy` — `str.split` with one-character separators and the two
  expressions built on it (`url.split('/')[-1]`, `url.split('?')[0]`),
  `str.strip`, `str.startswith` and the decimal rendering of the counter.
- `catalog.dfy` — `get_channel_genres_list` (a loop over the matched
  anchors) and `get_stations_url` (a set comprehension).
- `channels.dfy` — `get_channel_info` and `get_channel_streams` (a loop
  over the station set that appends one record per live station).
- `playlist.dfy` — `make_m3u` (a loop over the channels whose inner loop,
  `SelectStream`, probes candidates until the first 200).

Python exceptions are values of `Channels.Fault`. The script catches none of
them in this part: a station whose API call fails (the error string has no
`.get`), whose body is not JSON, or whose live reply lacks `result`, has an
empty `result`, or lacks item 0's `titleChannel` or an item's `urlStream`
aborts the whole run, and the model says so (`Failure(...)` for the whole of
`ChannelStreams`).

The model follows what the code does:

- a failed listing page and a page where the selector matched nothing both
  give `None`; there are no distinct "unavailable" and "empty" errors;
- a listing whose matched anchors are all placeholders gives an empty list,
  not a failure;
- API failures and undecodable bodies are not station-local: they end the run;
- a genre title is not guaranteed to be non-empty after stripping;
- a candidate stream is skipped only when it does not start with `http`;
  `httpfoo` is probed;
- the `#EXTINF` duration field (section 4.3.2.1 of RFC 8216) holds the
  entry's zero-based number, as the code writes it.

## Model

| member | source | states |
|---|---|---|
| PyText.Split | py101ru.py:115 | `str.split` never returns an empty list, so `[-1]` and `[0]` are always defined |
| PyText.JoinSplit | py101ru.py:115 | joining the pieces of `split` with the separator gives back the string |
| PyText.SplitPiecesHaveNoSep | py101ru.py:115 | no piece of `split(sep)` contains `sep` |
| PyText.TrailingSegmentIsLastPiece | py101ru.py:115 | `url.split('/')[-1]` is the longest suffix without `/`: a suffix, no `/`, all of the URL or preceded by `/` |
| PyText.TrailingSegmentIdempotent | py101ru.py:138 | taking the trailing segment of a trailing segment changes nothing |
| Channels.ChannelInfo | py101ru.py:106-117 | the API is asked about the last path segment of the URL; a non-200 answer is returned as its body text; a 200 answer is the decoded JSON, and the only failure is `JSONDecodeError`, exactly when the body is not JSON |
| Channels.ChannelInfoOfNumber | py101ru.py:138 | passing the station number (line 138) instead of the station URL asks the API the same question |
| PyText.QueryStripIsFirstPiece | py101ru.py:143 | `split('?')[0]` is the longest prefix without `?`: a prefix, no `?`, all of the URL or followed by `?`; identity on URLs without `?` |
| PyText.QueryStripIdempotent | py101ru.py:143 | stripping the query twice is stripping it once |
| PyText.StripBounds | py101ru.py:78 | `strip()` is the slice left after cutting whitespace from both ends; what is cut is whitespace and the result neither starts nor ends with it |
| PyText.Decimal | py101ru.py:172 | the counter is written as decimal digits with no leading zero |
| PyText.DecimalRoundTrip | py101ru.py:172 | reading the written digits back gives the counter |
| Catalog.GenreList | py101ru.py:63-81 | the appending loop returns `None` for a failed page or no match, otherwise the genres of the real links in document order |
| Catalog.GenreListingOutcomes | py101ru.py:65-72 | `None` exactly when the status is not 200 or nothing matched; an empty list when every matched anchor is a placeholder; never more genres than anchors |
| Catalog.GenresAppend | py101ru.py:73-80 | genres of consecutive runs of anchors are the genres of each run in order, so source order is kept |
| Catalog.GenresMembership | py101ru.py:73-80 | a genre is listed exactly when some anchor with a non-empty, non-`#` href stands for it |
| Catalog.GenreUrls | py101ru.py:77-80 | every listed URL is `https://101.ru` followed by a real link, every title an anchor's stripped text |
| Catalog.StationUrls | py101ru.py:94-103 | `None` exactly for a failed page or no match; otherwise every element is `https://101.ru` + a matched href and every matched href is represented |
| Catalog.StationCount | py101ru.py:103 | the station set has exactly as many URLs as there are distinct hrefs |
| Catalog.AbsoluteSize | py101ru.py:103 | prefixing the origin maps distinct hrefs to distinct URLs |
| Channels.StreamsOf | py101ru.py:143 | one stripped URL per result item in item order, or `KeyError` exactly when some item has no `urlStream` |
| Channels.BuildRecord | py101ru.py:141-144 | a record is built exactly when `result` exists, is non-empty, item 0 has a title and every item a stream; its title is item 0's, its streams the items' stripped URLs in order |
| Channels.IsLive | py101ru.py:140 | `status is not None and status == 1` holds exactly for the integer 1 and `true` |
| Channels.StationChannel | py101ru.py:138-144 | every case of one station, against the API answer for its URL: the API call's exception passes through; an error text or a non-object body raises `AttributeError`; a non-live object gives no record; a live object gives its record, or the exception raised while building it |
| Channels.ChannelStreams | py101ru.py:135-145 | iterating `None` raises `TypeError`; otherwise the loop's result is the records of the stations in visiting order, or the first exception raised |
| Channels.FailureIsFinal | py101ru.py:137-144 | once a station has raised, no later station changes the outcome |
| Channels.ChannelsFromAppend | py101ru.py:137-145 | visiting two runs of stations gives the records of the first followed by those of the second, or the first exception |
| Channels.ChannelsFromRecords | py101ru.py:137-145 | the run succeeds exactly when no station raises; a record is listed exactly when a visited station produced it; never more records than stations |
| Playlist.SelectStream | py101ru.py:161-168 | the inner loop returns the first candidate that starts with `http` and answers 200, and the list of URLs it probed |
| Playlist.FirstLiveIsFirst | py101ru.py:161-168 | the active stream is one of the candidates, starts with `http`, answered 200, and no earlier candidate did; none exactly when no candidate is live; the probes are the `http` candidates up to and including it, so nothing after it is probed |
| Playlist.ProbesAreHttp | py101ru.py:163-165 | a candidate not starting with `http` is never probed |
| Playlist.MakeM3u | py101ru.py:157-174 | the text written is the header followed by one block per channel with an active stream, numbered by position; the probes are those of each channel in order |
| Playlist.ValidatedMembership | py101ru.py:166-173 | an entry is written exactly for a channel whose first live candidate it carries, under that channel's title |
| Playlist.ValidatedStreamIsLive | py101ru.py:166-167 | every written stream is one of its channel's streams, starts with `http` and answered 200 |
| Playlist.ValidatedAppend | py101ru.py:160-173 | the entries of consecutive runs of channels are those of each run, in channel order |
| Playlist.DeadChannelLeavesNoTrace | py101ru.py:169-171 | a channel with no live candidate changes nothing in the output, the numbering included |
| Playlist.RenderLines | py101ru.py:158-173 | split into lines, the output is `#EXTM3U`, then for entry j the line `#EXTINF: j, title` and its stream line, j = 0..k-1, then nothing after the final newline, provided no title or stream contains a newline |

## Left out

- `get_page` (network, TLS context, timeout): replaced by the `fetch` and `probe` parameters and, for the two listing pages, by the page status. Both are total: an exception `get_page` does not catch (it catches only `HTTPError`, `URLError` and `ValueError`), such as a read timeout or a dropped connection, would end `get_channel_streams` or `make_m3u` and is not modelled.
- BeautifulSoup's CSS selection: the matched elements are given as `Catalog.Anchor` values in document order; `.text` is the given text.
- `json.loads`: replaced by the `parse` parameter. A decoded reply keeps only `status` and, per item, `titleChannel` and `urlStream`; item values of other JSON types than strings, a `result` that is not a list, and a `result` element that is not an object (a string there makes `x['urlStream']` raise `TypeError`) are not modelled. A `status` of `1.0` also equals 1 in Python; floating point is not modelled, so only `1` and `true` are live.
- The call of `get_stations_url` inside `get_channel_streams`: `ChannelStreams` takes its result, so the composition is `ChannelStreams(StationUrls(code, anchors), ...)`.
- `fetch` and `probe` are functions of the URL: a URL requested twice (a stream listed by two channels, a station reached twice) gets the same answer both times, whereas the script sends a new request each time.
- The iteration order of the Python station set: it is the `order` parameter, which must list every station exactly once.
- The inner probe loop of `make_m3u` is the separate method `SelectStream`; the behaviour and the probe order are the same as the nested loop's.
- `print` of error messages and of dropped channel titles, and `main` (the genre menu, `input()`, `int(num)` and indexing into the genres): console I/O.
- The playlist file: its name is built from the genre title without any sanitising, and it is opened with `errors='ignore'`, which drops characters UTF-8 cannot encode; the model keeps the written text only.
