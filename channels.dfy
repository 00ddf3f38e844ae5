/**
 * Channel resolution: `get_channel_info` asks the 101.ru API about one
 * station and `get_channel_streams` turns the live stations of a genre
 * into channel records (a title and the stream URLs with their query
 * strings cut off). The page fetch and `json.loads` are parameters.
 * Every exception the Python code would raise is a `Fault` that ends the
 * whole run: the code has no per-station recovery.
 */
module Channels {
  import opened Wrappers
  import opened PyText
  import opened Http

  /** The API endpoint; a station's servers are at `<this>/<number>/channel/`. */
  const ChannelServersUrl: string := "https://101.ru/api/channel/getListServersChannel"

  /** What `get_page` returns: the status (404 when no response came) and the body or an error text. */
  datatype Page = Page(code: int, data: string)

  /** The value under a reply's `status` key as `json.loads` decodes it; `Absent` when the key is missing. */
  datatype Status = Absent | Null | Bool(b: bool) | Int(n: int) | Text(s: string) | Other

  /** One element of a reply's `result` list: the two keys read, `None` when a key is missing. */
  datatype Item = Item(titleChannel: Option<string>, urlStream: Option<string>)

  /** A JSON object returned by the API; `result` is `None` when the key is missing. */
  datatype Reply = Reply(status: Status, result: Option<seq<Item>>)

  /** What `json.loads` makes of a body: an object, or another JSON value (list, number, string, null). */
  datatype Json = Object(reply: Reply) | NotObject

  /** `get_channel_info`'s result: the decoded body, or the error text of a failed fetch. */
  datatype Info = Decoded(json: Json) | ErrorText(message: string)

  /** The Python exceptions that end `get_channel_streams`. */
  datatype Fault = JsonDecodeError | AttributeError | KeyError(key: string) | IndexError | TypeError

  /** A channel record: its title and its candidate stream URLs in the API's order. */
  datatype Channel = Channel(title: string, streams: seq<string>)

  /** The API URL for a station number. */
  function ApiUrl(number: string): string
  {
    ChannelServersUrl + "/" + number + "/channel/"
  }

  /**
   * `get_channel_info(url)`: asks the API about the station named by the last
   * path segment of `url`; decodes the body of a 200 answer (an undecodable
   * body raises) and hands back the error text of any other answer.
   */
  function ChannelInfo(url: string, fetch: string -> Page, parse: string -> Option<Json>): (r: Result<Info, Fault>)
    ensures var page := fetch(ApiUrl(TrailingSegment(url)));
      (r.Success? <==> page.code != StatusOk || parse(page.data).Some?) &&
      (r.Failure? ==> r.error == JsonDecodeError) &&
      (page.code != StatusOk ==> r == Success(ErrorText(page.data))) &&
      (page.code == StatusOk && r.Success? ==> r == Success(Decoded(parse(page.data).value)))
  {
    var page := fetch(ApiUrl(TrailingSegment(url)));
    if page.code == StatusOk then
      match parse(page.data)
      case None => Failure(JsonDecodeError)
      case Some(j) => Success(Decoded(j))
    else
      Success(ErrorText(page.data))
  }

  /**
   * Passing the station number rather than the station URL asks the API the
   * same question: the number is the trailing segment of the URL, and the
   * trailing segment of the number is the number itself.
   */
  lemma ChannelInfoOfNumber(url: string, fetch: string -> Page, parse: string -> Option<Json>)
    ensures ChannelInfo(TrailingSegment(url), fetch, parse) == ChannelInfo(url, fetch, parse)
  {
    TrailingSegmentIdempotent(url);
  }

  /** Python's `status == 1` on a decoded JSON value: `True == 1` holds too. */
  predicate EqualsOne(s: Status)
  {
    match s
    case Int(n) => n == 1
    case Bool(b) => b
    case _ => false
  }

  /**
   * Python's `status is not None and status == 1`: a missing key and JSON
   * `null` both read as `None`. Exactly the integer 1 and `true` pass.
   */
  function IsLive(s: Status): (live: bool)
    ensures live <==> s == Int(1) || s == Bool(true)
  {
    s != Absent && s != Null && EqualsOne(s)
  }

  /**
   * `[x['urlStream'].split('?')[0] for x in result]`: one stripped URL per
   * item, in order, or `KeyError` when an item has no `urlStream`.
   */
  function StreamsOf(items: seq<Item>): (r: Result<seq<string>, Fault>)
    ensures r.Success? <==> forall k :: 0 <= k < |items| ==> items[k].urlStream.Some?
    ensures r.Failure? ==> r.error == KeyError("urlStream")
    ensures r.Success? ==>
      |r.value| == |items| &&
      forall k :: 0 <= k < |items| ==> r.value[k] == QueryStrip(items[k].urlStream.value)
  {
    if items == [] then Success([])
    else
      match items[0].urlStream
      case None => Failure(KeyError("urlStream"))
      case Some(u) =>
        match StreamsOf(items[1..])
        case Failure(e) => Failure(e)
        case Success(rest) => Success([QueryStrip(u)] + rest)
  }

  /** The record of a live reply: title of item 0, streams of all items. */
  function BuildRecord(reply: Reply): (r: Result<Channel, Fault>)
    ensures r.Success? <==>
      reply.result.Some? && |reply.result.value| > 0 &&
      reply.result.value[0].titleChannel.Some? &&
      forall k :: 0 <= k < |reply.result.value| ==> reply.result.value[k].urlStream.Some?
    ensures r.Success? ==>
      var items := reply.result.value;
      r.value.title == items[0].titleChannel.value &&
      |r.value.streams| == |items| &&
      forall k :: 0 <= k < |items| ==> r.value.streams[k] == QueryStrip(items[k].urlStream.value)
  {
    match reply.result
    case None => Failure(KeyError("result"))
    case Some(items) =>
      if items == [] then Failure(IndexError)
      else
        match items[0].titleChannel
        case None => Failure(KeyError("titleChannel"))
        case Some(title) =>
          match StreamsOf(items)
          case Failure(e) => Failure(e)
          case Success(streams) => Success(Channel(title, streams))
  }

  /**
   * What one station contributes to `get_channel_streams`, stated against the
   * API answer for the station URL itself (the loop passes the station number,
   * which asks the same question): the exception of the API call; an
   * `AttributeError` for the error text of a failed fetch or a body that is
   * not a JSON object, neither of which has `.get`; no record for an object
   * whose status is not live; and for a live object, its record or the
   * exception raised while building it.
   */
  function StationChannel(url: string, fetch: string -> Page, parse: string -> Option<Json>)
    : (r: Result<Option<Channel>, Fault>)
    ensures var info := ChannelInfo(url, fetch, parse);
      info.Failure? ==> r == Failure(info.error)
    ensures var info := ChannelInfo(url, fetch, parse);
      info.Success? && (info.value.ErrorText? || info.value.json.NotObject?) ==>
        r == Failure(AttributeError)
    ensures var info := ChannelInfo(url, fetch, parse);
      info.Success? && info.value.Decoded? && info.value.json.Object? ==>
        var reply := info.value.json.reply;
        (!IsLive(reply.status) ==> r == Success(None)) &&
        (IsLive(reply.status) && BuildRecord(reply).Success? ==>
          r == Success(Some(BuildRecord(reply).value))) &&
        (IsLive(reply.status) && BuildRecord(reply).Failure? ==>
          r == Failure(BuildRecord(reply).error))
  {
    ChannelInfoOfNumber(url, fetch, parse);
    match ChannelInfo(TrailingSegment(url), fetch, parse)
    case Failure(e) => Failure(e)
    case Success(ErrorText(_)) => Failure(AttributeError)
    case Success(Decoded(NotObject)) => Failure(AttributeError)
    case Success(Decoded(Object(reply))) =>
      if IsLive(reply.status) then
        match BuildRecord(reply)
        case Failure(e) => Failure(e)
        case Success(c) => Success(Some(c))
      else
        Success(None)
  }

  /** What a station contributes to the run: an exception, nothing, or a record. */
  type Outcome = Result<Option<Channel>, Fault>

  /**
   * The records of the stations visited in `order`, or the first exception
   * raised, for any per-station outcome `visit` (`StationChannel` in the
   * scraper).
   */
  function ChannelsFrom(order: seq<string>, visit: string -> Outcome): Result<seq<Channel>, Fault>
  {
    if order == [] then Success([])
    else
      match ChannelsFrom(order[..|order| - 1], visit)
      case Failure(e) => Failure(e)
      case Success(cs) =>
        match visit(order[|order| - 1])
        case Failure(e) => Failure(e)
        case Success(None) => Success(cs)
        case Success(Some(c)) => Success(cs + [c])
  }

  /** `order` visits every element of `stations` exactly once, as iterating a Python set does. */
  predicate Enumerates(order: seq<string>, stations: set<string>)
  {
    (forall i :: 0 <= i < |order| ==> order[i] in stations) &&
    (forall u :: u in stations ==> u in order) &&
    (forall i, j :: 0 <= i < j < |order| ==> order[i] != order[j])
  }

  /**
   * `get_channel_streams`, given what `get_stations_url` returned and the
   * order in which the set is iterated: iterating `None` raises `TypeError`;
   * otherwise the records of the live stations in visiting order, or the
   * first exception any station raised.
   */
  method ChannelStreams(stations: Option<set<string>>, order: seq<string>,
                        fetch: string -> Page, parse: string -> Option<Json>)
    returns (r: Result<seq<Channel>, Fault>)
    requires stations.Some? ==> Enumerates(order, stations.value)
    ensures stations.None? ==> r == Failure(TypeError)
    ensures stations.Some? ==> r == ChannelsFrom(order, url => StationChannel(url, fetch, parse))
  {
    if stations.None? {
      return Failure(TypeError);
    }
    ghost var visit := url => StationChannel(url, fetch, parse);
    var result := [];
    for k := 0 to |order|
      invariant ChannelsFrom(order[..k], visit) == Success(result)
    {
      assert order[..k + 1][..k] == order[..k];
      var ch := order[k];
      var chNum := TrailingSegment(ch);
      var info := ChannelInfo(chNum, fetch, parse);
      var reply: Reply;
      match info {
        case Failure(e) =>
          FailureIsFinal(order, k + 1, visit);
          return Failure(e);
        case Success(ErrorText(_)) =>
          FailureIsFinal(order, k + 1, visit);
          return Failure(AttributeError);
        case Success(Decoded(NotObject)) =>
          FailureIsFinal(order, k + 1, visit);
          return Failure(AttributeError);
        case Success(Decoded(Object(rep))) =>
          reply := rep;
      }
      if IsLive(reply.status) {
        match BuildRecord(reply) {
          case Failure(e) =>
            FailureIsFinal(order, k + 1, visit);
            return Failure(e);
          case Success(c) =>
            result := result + [c];
        }
      }
    }
    assert order[..|order|] == order;
    return Success(result);
  }

  /** Once a prefix of the stations has raised, the whole run raises the same. */
  lemma {:induction false} FailureIsFinal(order: seq<string>, k: nat, visit: string -> Outcome)
    requires k <= |order|
    requires ChannelsFrom(order[..k], visit).Failure?
    ensures ChannelsFrom(order, visit) == ChannelsFrom(order[..k], visit)
    decreases |order| - k
  {
    if k < |order| {
      assert order[..k + 1][..k] == order[..k];
      FailureIsFinal(order, k + 1, visit);
    } else {
      assert order[..k] == order;
    }
  }

  /** Combines the outcomes of two runs of stations visited one after the other. */
  function Then(first: Result<seq<Channel>, Fault>, second: Result<seq<Channel>, Fault>)
    : Result<seq<Channel>, Fault>
  {
    match first
    case Failure(e) => Failure(e)
    case Success(cs) =>
      match second
      case Failure(e) => Failure(e)
      case Success(ds) => Success(cs + ds)
  }

  /**
   * Visiting `a` then `b` gives the records of `a` followed by those of `b`,
   * unless a station raises, in which case the first exception is the outcome.
   */
  lemma {:induction false} ChannelsFromAppend(a: seq<string>, b: seq<string>, visit: string -> Outcome)
    ensures ChannelsFrom(a + b, visit) ==
      Then(ChannelsFrom(a, visit), ChannelsFrom(b, visit))
    decreases |b|
  {
    if b == [] {
      assert a + b == a;
      if ChannelsFrom(a, visit).Success? {
        assert ChannelsFrom(a, visit).value + [] == ChannelsFrom(a, visit).value;
      }
    } else {
      var b' := b[..|b| - 1];
      assert (a + b)[..|a + b| - 1] == a + b';
      assert (a + b)[|a + b| - 1] == b[|b| - 1];
      ChannelsFromAppend(a, b', visit);
      if ChannelsFrom(a, visit).Success? && ChannelsFrom(b', visit).Success? &&
         visit(b[|b| - 1]).Success? && visit(b[|b| - 1]).value.Some? {
        var cs, ds, c := ChannelsFrom(a, visit).value, ChannelsFrom(b', visit).value, visit(b[|b| - 1]).value.value;
        assert cs + ds + [c] == cs + (ds + [c]);
      }
    }
  }

  /**
   * The run succeeds exactly when no station raises, and then its records are
   * those of the live stations: a record is listed exactly when some visited
   * station produced it, and there are never more records than stations.
   */
  lemma {:induction false} ChannelsFromRecords(order: seq<string>, visit: string -> Outcome)
    ensures ChannelsFrom(order, visit).Success? <==>
      forall i :: 0 <= i < |order| ==> visit(order[i]).Success?
    ensures ChannelsFrom(order, visit).Success? ==>
      var cs := ChannelsFrom(order, visit).value;
      |cs| <= |order| &&
      forall c :: c in cs <==>
        exists i :: 0 <= i < |order| && visit(order[i]) == Success(Some(c))
    decreases |order|
  {
    if order != [] {
      var n := |order| - 1;
      var init := order[..n];
      ChannelsFromRecords(init, visit);
      assert forall i :: 0 <= i < n ==> init[i] == order[i];
      if ChannelsFrom(order, visit).Success? {
        var cs := ChannelsFrom(order, visit).value;
        forall c ensures c in cs <==>
          exists i :: 0 <= i < |order| && visit(order[i]) == Success(Some(c))
        {
          if exists i :: 0 <= i < |order| && visit(order[i]) == Success(Some(c)) {
            var i :| 0 <= i < |order| && visit(order[i]) == Success(Some(c));
            if i < n {
              assert visit(init[i]) == Success(Some(c));
            }
          }
        }
      }
    }
  }
}
