/**
 * `make_m3u`: for each channel record, probe its candidate streams in order
 * and keep the first that answers 200; write an `#EXTM3U` playlist with one
 * `#EXTINF` entry per channel that has such a stream, numbered 0, 1, 2, ...
 * without gaps. The probe (`get_page(s, False)`) is a parameter returning
 * the status code; the file is the string written to it.
 */
module Playlist {
  import opened Wrappers
  import opened PyText
  import opened Channels
  import opened Http

  /** The first line of every playlist. */
  const Header: string := "#EXTM3U\n"

  /** The status the probe loop starts each candidate with, and keeps for one it does not probe. */
  const NotProbed: int := Unreachable

  /** A channel that survived validation: its title and its active stream. */
  datatype Entry = Entry(title: string, stream: string)

  /** A candidate that is probed at all: its URL starts with `http`. */
  predicate Probeable(s: string)
  {
    StartsWith(s, "http")
  }

  /** A candidate that can become the active stream: probed, and answered 200. */
  predicate Live(s: string, probe: string -> int)
  {
    Probeable(s) && probe(s) == StatusOk
  }

  /** The candidate the probe loop settles on, if any. */
  function FirstLive(streams: seq<string>, probe: string -> int): Option<string>
  {
    if streams == [] then None
    else if Live(streams[0], probe) then Some(streams[0])
    else FirstLive(streams[1..], probe)
  }

  /** The URLs the probe loop sends a request to, in order. */
  function Probes(streams: seq<string>, probe: string -> int): seq<string>
  {
    if streams == [] then []
    else if !Probeable(streams[0]) then Probes(streams[1..], probe)
    else if probe(streams[0]) == StatusOk then [streams[0]]
    else [streams[0]] + Probes(streams[1..], probe)
  }

  /** The probeable candidates among `streams`, in order. */
  function ProbeableOnly(streams: seq<string>): seq<string>
  {
    if streams == [] then []
    else (if Probeable(streams[0]) then [streams[0]] else []) + ProbeableOnly(streams[1..])
  }

  /** The channels that keep an active stream, in channel order. */
  function Validated(channels: seq<Channel>, probe: string -> int): seq<Entry>
  {
    if channels == [] then []
    else
      var c := channels[|channels| - 1];
      Validated(channels[..|channels| - 1], probe) +
        match FirstLive(c.streams, probe)
        case None => []
        case Some(s) => [Entry(c.title, s)]
  }

  /** Every probe request of the run, channel after channel. */
  function AllProbes(channels: seq<Channel>, probe: string -> int): seq<string>
  {
    if channels == [] then []
    else
      AllProbes(channels[..|channels| - 1], probe) + Probes(channels[|channels| - 1].streams, probe)
  }

  /** The `#EXTINF` line of the entry numbered `i`; the number stands where a duration belongs. */
  function InfoLine(i: nat, e: Entry): string
  {
    "#EXTINF: " + Decimal(i) + ", " + e.title
  }

  /** The two lines written for the entry numbered `i`. */
  function Block(i: nat, e: Entry): string
  {
    InfoLine(i, e) + "\n" + e.stream + "\n"
  }

  /** The entries' blocks, the one at position `i` numbered `i`. */
  function Blocks(entries: seq<Entry>): string
  {
    if entries == [] then []
    else Blocks(entries[..|entries| - 1]) + Block(|entries| - 1, entries[|entries| - 1])
  }

  /** The whole playlist for the validated entries. */
  function Render(entries: seq<Entry>): string
  {
    Header + Blocks(entries)
  }

  /**
   * `make_m3u`: the text written to the playlist file and the URLs probed
   * along the way. The inner loop stops at the first candidate whose probe
   * answers 200; a channel without one is skipped and does not take a number.
   */
  method MakeM3u(channels: seq<Channel>, probe: string -> int) returns (out: string, probes: seq<string>)
    ensures out == Render(Validated(channels, probe))
    ensures probes == AllProbes(channels, probe)
  {
    out := Header;
    probes := [];
    var i: nat := 0;
    for k := 0 to |channels|
      invariant out == Render(Validated(channels[..k], probe))
      invariant i == |Validated(channels[..k], probe)|
      invariant probes == AllProbes(channels[..k], probe)
    {
      ChannelStep(channels, k, probe);
      var val := channels[k];
      var activeStream, tried := SelectStream(val.streams, probe);
      probes := probes + tried;
      if activeStream.None? {
        continue;
      }
      var e := Entry(val.title, activeStream.value);
      RenderAppend(Validated(channels[..k], probe), e);
      out := out + Block(i, e);
      i := i + 1;
    }
    assert channels[..|channels|] == channels;
  }

  /**
   * The inner loop of `make_m3u` for one channel: walks the candidates in
   * order, probes those starting with `http`, and stops at the first probe
   * that answers 200. Returns that candidate, if any, and the URLs probed.
   */
  method SelectStream(streams: seq<string>, probe: string -> int)
    returns (activeStream: Option<string>, probes: seq<string>)
    ensures activeStream == FirstLive(streams, probe)
    ensures probes == Probes(streams, probe)
  {
    activeStream := None;
    probes := [];
    var j := 0;
    while j < |streams|
      invariant 0 <= j <= |streams|
      invariant activeStream == None
      invariant FirstLive(streams[..j], probe) == None
      invariant probes == Probes(streams[..j], probe)
    {
      var s := streams[j];
      var code := NotProbed;
      if Probeable(s) {
        code := probe(s);
        probes := probes + [s];
      }
      ProbeOne(streams[..j], s, probe);
      if code == StatusOk {
        activeStream := Some(s);
        StopAtLive(streams, j, probe);
        break;
      }
      assert streams[..j + 1] == streams[..j] + [s];
      j := j + 1;
    }
    if j == |streams| {
      assert streams[..j] == streams;
    }
  }

  /** What the channel at position `k` adds to the entries, the probes and the text. */
  lemma ChannelStep(channels: seq<Channel>, k: nat, probe: string -> int)
    requires k < |channels|
    ensures var c := channels[k];
      var es := Validated(channels[..k], probe);
      (FirstLive(c.streams, probe).None? ==> Validated(channels[..k + 1], probe) == es) &&
      (FirstLive(c.streams, probe).Some? ==>
        Validated(channels[..k + 1], probe) == es + [Entry(c.title, FirstLive(c.streams, probe).value)]) &&
      AllProbes(channels[..k + 1], probe) == AllProbes(channels[..k], probe) + Probes(c.streams, probe)
  {
    assert channels[..k + 1][..k] == channels[..k];
  }

  /** One more entry adds its block, numbered with its position, to the text. */
  lemma RenderAppend(es: seq<Entry>, e: Entry)
    ensures Render(es + [e]) == Render(es) + Block(|es|, e)
  {
  }

  /** Past a prefix without a live candidate, the search and the probes carry on into the rest. */
  lemma {:induction false} NoLivePrefix(p: seq<string>, q: seq<string>, probe: string -> int)
    requires FirstLive(p, probe) == None
    ensures FirstLive(p + q, probe) == FirstLive(q, probe)
    ensures Probes(p + q, probe) == Probes(p, probe) + Probes(q, probe)
  {
    if p == [] {
      assert p + q == q;
    } else {
      assert (p + q)[0] == p[0] && (p + q)[1..] == p[1..] + q;
      NoLivePrefix(p[1..], q, probe);
    }
  }

  /** One more candidate after a prefix without a live one. */
  lemma ProbeOne(p: seq<string>, s: string, probe: string -> int)
    requires FirstLive(p, probe) == None
    ensures FirstLive(p + [s], probe) == if Live(s, probe) then Some(s) else None
    ensures Probes(p + [s], probe) == Probes(p, probe) + if Probeable(s) then [s] else []
  {
    NoLivePrefix(p, [s], probe);
  }

  /** Stopping at a live candidate after a prefix without one settles the whole list. */
  lemma StopAtLive(streams: seq<string>, j: nat, probe: string -> int)
    requires j < |streams| && FirstLive(streams[..j], probe) == None && Live(streams[j], probe)
    ensures FirstLive(streams, probe) == Some(streams[j])
    ensures Probes(streams, probe) == Probes(streams[..j], probe) + [streams[j]]
  {
    assert streams == streams[..j] + streams[j..];
    NoLivePrefix(streams[..j], streams[j..], probe);
  }

  /**
   * The active stream is the first live candidate: it is one of the
   * channel's streams, starts with `http`, answered 200, and no candidate
   * before it did; there is none exactly when no candidate is live.
   * The probes sent are the probeable candidates up to and including it
   * (all of them when there is none), so nothing after it is probed.
   */
  lemma {:induction false} FirstLiveIsFirst(streams: seq<string>, probe: string -> int) returns (k: nat)
    ensures FirstLive(streams, probe).None? <==> forall j :: 0 <= j < |streams| ==> !Live(streams[j], probe)
    ensures FirstLive(streams, probe).None? ==> Probes(streams, probe) == ProbeableOnly(streams)
    ensures FirstLive(streams, probe).Some? ==>
      k < |streams| && streams[k] == FirstLive(streams, probe).value &&
      Live(streams[k], probe) && StartsWith(streams[k], "http") && probe(streams[k]) == StatusOk &&
      (forall j :: 0 <= j < k ==> !Live(streams[j], probe)) &&
      Probes(streams, probe) == ProbeableOnly(streams[..k + 1])
  {
    if streams == [] {
      k := 0;
    } else if Live(streams[0], probe) {
      k := 0;
      assert streams[..1] == [streams[0]];
    } else {
      var k' := FirstLiveIsFirst(streams[1..], probe);
      k := k' + 1;
      if FirstLive(streams, probe).Some? {
        assert streams[..k + 1][1..] == streams[1..][..k' + 1];
      }
    }
  }

  /** Every probe goes to a URL that starts with `http`. */
  lemma {:induction false} ProbesAreHttp(streams: seq<string>, probe: string -> int)
    ensures forall p :: p in Probes(streams, probe) ==> StartsWith(p, "http")
  {
    if streams != [] {
      ProbesAreHttp(streams[1..], probe);
    }
  }

  /** The validated entries of two runs of channels are those of each, in order. */
  lemma {:induction false} ValidatedAppend(a: seq<Channel>, b: seq<Channel>, probe: string -> int)
    ensures Validated(a + b, probe) == Validated(a, probe) + Validated(b, probe)
    decreases |b|
  {
    if b == [] {
      assert a + b == a;
    } else {
      assert (a + b)[..|a + b| - 1] == a + b[..|b| - 1];
      ValidatedAppend(a, b[..|b| - 1], probe);
    }
  }

  /** The entry a channel yields: its title with its first live candidate. */
  predicate Yields(c: Channel, probe: string -> int, e: Entry)
  {
    c.title == e.title && FirstLive(c.streams, probe) == Some(e.stream)
  }

  /**
   * An entry is written exactly when some channel yields it: a channel with a
   * live candidate, under that channel's title, with its first live candidate.
   */
  lemma {:induction false} ValidatedMembership(channels: seq<Channel>, probe: string -> int, e: Entry)
    ensures e in Validated(channels, probe) <==>
      exists i :: 0 <= i < |channels| && Yields(channels[i], probe, e)
    decreases |channels|
  {
    if channels != [] {
      var n := |channels| - 1;
      var init := channels[..n];
      ValidatedMembership(init, probe, e);
      if e in Validated(channels, probe) {
        if e in Validated(init, probe) {
          var i :| 0 <= i < |init| && Yields(init[i], probe, e);
          assert channels[i] == init[i];
        } else {
          assert Yields(channels[n], probe, e);
        }
      }
      if exists i :: 0 <= i < |channels| && Yields(channels[i], probe, e) {
        var i :| 0 <= i < |channels| && Yields(channels[i], probe, e);
        if i < n {
          assert init[i] == channels[i];
        }
      }
    }
  }

  /** Every active stream written is one of its channel's own streams, and it answered 200. */
  lemma {:induction false} ValidatedStreamIsLive(channels: seq<Channel>, probe: string -> int, e: Entry)
    requires e in Validated(channels, probe)
    ensures exists i :: (0 <= i < |channels| &&
      channels[i].title == e.title && e.stream in channels[i].streams &&
      StartsWith(e.stream, "http") && probe(e.stream) == StatusOk)
  {
    ValidatedMembership(channels, probe, e);
    var i :| 0 <= i < |channels| && Yields(channels[i], probe, e);
    var k := FirstLiveIsFirst(channels[i].streams, probe);
  }

  /** A channel without a live candidate leaves the playlist exactly as if it were absent. */
  lemma DeadChannelLeavesNoTrace(a: seq<Channel>, c: Channel, b: seq<Channel>, probe: string -> int)
    requires FirstLive(c.streams, probe) == None
    ensures Render(Validated(a + [c] + b, probe)) == Render(Validated(a + b, probe))
  {
    ValidatedAppend(a + [c], b, probe);
    ValidatedAppend(a, [c], probe);
    ValidatedAppend(a, b, probe);
    assert [c][..0] == [];
    assert Validated([c], probe) == [];
    assert Validated(a + [c], probe) == Validated(a, probe);
  }

  /** Splitting text that ends in two newline-free lines. */
  lemma SplitTwoLines(u: string, x: string, y: string)
    requires '\n' !in x && '\n' !in y
    ensures Split(u + ['\n'] + x + ['\n'] + y + ['\n'], '\n') == Split(u, '\n') + [x, y, []]
  {
    assert u + ['\n'] + x + ['\n'] + y + ['\n'] == u + ['\n'] + (x + ['\n'] + (y + ['\n'] + []));
    SplitAtSep(u, x + ['\n'] + (y + ['\n'] + []), '\n');
    SplitAtSep(x, y + ['\n'] + [], '\n');
    SplitAtSep(y, [], '\n');
    SplitWithoutSep(x, '\n');
    SplitWithoutSep(y, '\n');
  }

  /** Splitting text that ends in a newline: the last piece is empty. */
  lemma SplitFinalNewline(u: string)
    ensures Split(u + ['\n'], '\n') == Split(u, '\n') + [[]]
  {
    assert u + ['\n'] == u + ['\n'] + [];
    SplitAtSep(u, [], '\n');
  }

  /** The playlist grows by the two lines of its last entry. */
  lemma RenderGrows(entries: seq<Entry>)
    requires entries != []
    ensures var n := |entries| - 1;
      Render(entries) == Render(entries[..n]) + InfoLine(n, entries[n]) + ['\n'] + entries[n].stream + ['\n']
  {
    var n := |entries| - 1;
    var b, e := Blocks(entries[..n]), entries[n];
    assert Blocks(entries) == b + Block(n, e);
    assert Block(n, e) == InfoLine(n, e) + ['\n'] + e.stream + ['\n'];
    assert Header + (b + Block(n, e)) == (Header + b) + InfoLine(n, e) + ['\n'] + e.stream + ['\n'];
  }

  /** The playlist text ends in a newline. */
  lemma RenderEndsInNewline(entries: seq<Entry>) returns (u: string)
    ensures Render(entries) == u + ['\n']
  {
    if entries == [] {
      u := "#EXTM3U";
    } else {
      var n := |entries| - 1;
      RenderGrows(entries);
      u := Render(entries[..n]) + InfoLine(n, entries[n]) + ['\n'] + entries[n].stream;
    }
  }

  /** No title or stream of the entries holds a line break. */
  predicate SingleLine(entries: seq<Entry>)
  {
    forall j :: 0 <= j < |entries| ==> '\n' !in entries[j].title && '\n' !in entries[j].stream
  }

  /** The lines a playlist is meant to consist of, before its final newline. */
  function ExpectedLines(entries: seq<Entry>): seq<string>
  {
    if entries == [] then ["#EXTM3U"]
    else
      var n := |entries| - 1;
      ExpectedLines(entries[..n]) + [InfoLine(n, entries[n]), entries[n].stream]
  }

  lemma {:induction false} RenderSplit(entries: seq<Entry>)
    requires SingleLine(entries)
    ensures Split(Render(entries), '\n') == ExpectedLines(entries) + [[]]
    decreases |entries|
  {
    if entries == [] {
      assert Render(entries) == "#EXTM3U" + ['\n'];
      SplitFinalNewline("#EXTM3U");
      SplitWithoutSep("#EXTM3U", '\n');
    } else {
      var n := |entries| - 1;
      var init := entries[..n];
      var e := entries[n];
      assert forall j :: 0 <= j < |init| ==> init[j] == entries[j];
      RenderSplit(init);
      var u := RenderEndsInNewline(init);
      RenderGrows(entries);
      var info := InfoLine(n, e);
      SplitFinalNewline(u);
      SeqCancel(Split(u, '\n'), ExpectedLines(init), []);
      InfoLineSingle(n, e);
      SplitTwoLines(u, info, e.stream);
      assert ExpectedLines(entries) + [[]] == ExpectedLines(init) + [info, e.stream, []];
    }
  }

  /** Equal sequences with equal last elements have equal fronts. */
  lemma SeqCancel<T>(a: seq<T>, b: seq<T>, x: T)
    requires a + [x] == b + [x]
    ensures a == b
  {
    assert a == (a + [x])[..|a|];
    assert b == (b + [x])[..|b|];
  }

  /** The `#EXTINF` line holds no line break when the title holds none. */
  lemma InfoLineSingle(i: nat, e: Entry)
    requires '\n' !in e.title
    ensures '\n' !in InfoLine(i, e)
  {
  }

  lemma {:induction false} ExpectedLinesAt(entries: seq<Entry>)
    ensures var lines := ExpectedLines(entries);
      |lines| == 2 * |entries| + 1 && lines[0] == "#EXTM3U" &&
      forall j :: 0 <= j < |entries| ==>
        lines[2 * j + 1] == InfoLine(j, entries[j]) && lines[2 * j + 2] == entries[j].stream
    decreases |entries|
  {
    if entries != [] {
      var n := |entries| - 1;
      ExpectedLinesAt(entries[..n]);
    }
  }

  /**
   * Read as lines, a playlist of `k` entries is the `#EXTM3U` line, then for
   * entry `j` (0 <= j < k) its `#EXTINF: j, title` line and its stream line,
   * then the empty remainder after the final newline, provided no title or
   * stream contains a newline.
   */
  lemma RenderLines(entries: seq<Entry>)
    requires SingleLine(entries)
    ensures var lines := Split(Render(entries), '\n');
      |lines| == 2 * |entries| + 2 &&
      lines[0] == "#EXTM3U" && lines[|lines| - 1] == "" &&
      forall j :: 0 <= j < |entries| ==>
        lines[2 * j + 1] == InfoLine(j, entries[j]) && lines[2 * j + 2] == entries[j].stream
  {
    RenderSplit(entries);
    ExpectedLinesAt(entries);
  }
}
