/**
 * The two catalogue pages of 101.ru: the genre listing read by
 * `get_channel_genres_list` and a genre's station grid read by
 * `get_stations_url`. The page fetch is given as its HTTP status and the
 * HTML parse as the elements the CSS selector matched, in document order.
 */
module Catalog {
  import opened Wrappers
  import opened PyText
  import opened Http

  /** The site origin every relative link is resolved against. */
  const Origin: string := "https://101.ru"

  /** One `<a href>` element matched by a selector: its text and its href. */
  datatype Anchor = Anchor(text: string, href: string)

  /** A genre of the listing page: its title and the absolute URL of its page. */
  datatype Genre = Genre(title: string, url: string)

  /** An href that is a real link, not empty and not the `#` placeholder. */
  predicate IsLink(href: string)
  {
    href != "" && href != "#"
  }

  /** The genre an anchor stands for: its stripped text, its href made absolute. */
  function GenreOf(a: Anchor): Genre
  {
    Genre(Strip(a.text), Origin + a.href)
  }

  /** The genres of the anchors that are real links, in document order. */
  function Genres(anchors: seq<Anchor>): seq<Genre>
  {
    if anchors == [] then []
    else
      var last := anchors[|anchors| - 1];
      Genres(anchors[..|anchors| - 1]) + (if IsLink(last.href) then [GenreOf(last)] else [])
  }

  /**
   * What `get_channel_genres_list` returns for the listing page's status and
   * its matched anchors: nothing (`None`) when the page was not fetched or no
   * anchor matched, otherwise the genres of the real links.
   */
  function GenreListing(code: int, anchors: seq<Anchor>): Option<seq<Genre>>
  {
    if code != StatusOk || anchors == [] then None else Some(Genres(anchors))
  }

  /** `get_channel_genres_list`: the loop that appends one genre per real link. */
  method GenreList(code: int, anchors: seq<Anchor>) returns (r: Option<seq<Genre>>)
    ensures r == GenreListing(code, anchors)
  {
    if code != StatusOk {
      return None;
    }
    if anchors == [] {
      return None;
    }
    var result := [];
    for k := 0 to |anchors|
      invariant result == Genres(anchors[..k])
    {
      assert anchors[..k + 1][..k] == anchors[..k];
      var tag := anchors[k].href;
      if !IsLink(tag) {
        continue;
      }
      result := result + [GenreOf(anchors[k])];
    }
    assert anchors[..|anchors|] == anchors;
    return Some(result);
  }

  /** The genres of two runs of anchors are the genres of each, in order. */
  lemma {:induction false} GenresAppend(a: seq<Anchor>, b: seq<Anchor>)
    ensures Genres(a + b) == Genres(a) + Genres(b)
    decreases |b|
  {
    if b == [] {
      assert a + b == a;
    } else {
      var b' := b[..|b| - 1];
      assert (a + b)[..|a + b| - 1] == a + b';
      GenresAppend(a, b');
    }
  }

  /** Anchor `a` is a real link and stands for genre `g`. */
  predicate StandsFor(a: Anchor, g: Genre)
  {
    IsLink(a.href) && g == GenreOf(a)
  }

  /** A genre is listed exactly when some anchor that is a real link stands for it. */
  lemma {:induction false} GenresMembership(anchors: seq<Anchor>, g: Genre)
    ensures g in Genres(anchors) <==> exists i :: 0 <= i < |anchors| && StandsFor(anchors[i], g)
    decreases |anchors|
  {
    if anchors != [] {
      var n := |anchors| - 1;
      var init := anchors[..n];
      GenresMembership(init, g);
      if g in Genres(anchors) {
        if g in Genres(init) {
          var i :| 0 <= i < |init| && StandsFor(init[i], g);
          assert anchors[i] == init[i];
        } else {
          assert StandsFor(anchors[n], g);
        }
      }
      if exists i :: 0 <= i < |anchors| && StandsFor(anchors[i], g) {
        var i :| 0 <= i < |anchors| && StandsFor(anchors[i], g);
        if i < n {
          assert init[i] == anchors[i];
        }
      }
    }
  }

  /** Every listed URL is the origin followed by a real link, and its title is an anchor's stripped text. */
  lemma GenreUrls(anchors: seq<Anchor>, g: Genre)
    requires g in Genres(anchors)
    ensures StartsWith(g.url, Origin) && IsLink(g.url[|Origin|..])
    ensures exists i :: 0 <= i < |anchors| && g.title == Strip(anchors[i].text)
  {
    GenresMembership(anchors, g);
    var i :| 0 <= i < |anchors| && StandsFor(anchors[i], g);
    assert g.url[|Origin|..] == anchors[i].href;
  }

  /** A page whose anchors are all placeholders lists no genre. */
  lemma {:induction false} GenresOfPlaceholders(anchors: seq<Anchor>)
    requires forall i :: 0 <= i < |anchors| ==> !IsLink(anchors[i].href)
    ensures Genres(anchors) == []
    decreases |anchors|
  {
    if anchors != [] {
      GenresOfPlaceholders(anchors[..|anchors| - 1]);
    }
  }

  /**
   * The three outcomes of `get_channel_genres_list`: `None` exactly when the
   * page failed or nothing matched; an empty list, not `None`, when anchors
   * matched but all were placeholders; never more genres than anchors.
   */
  lemma GenreListingOutcomes(code: int, anchors: seq<Anchor>)
    ensures GenreListing(code, anchors).None? <==> code != StatusOk || anchors == []
    ensures (code == StatusOk && anchors != [] &&
             forall i :: 0 <= i < |anchors| ==> !IsLink(anchors[i].href)) ==>
            GenreListing(code, anchors) == Some([])
    ensures GenreListing(code, anchors).Some? ==>
      |GenreListing(code, anchors).value| <= |anchors|
  {
    GenresLength(anchors);
    if forall i :: 0 <= i < |anchors| ==> !IsLink(anchors[i].href) {
      GenresOfPlaceholders(anchors);
    }
  }

  lemma {:induction false} GenresLength(anchors: seq<Anchor>)
    ensures |Genres(anchors)| <= |anchors|
    decreases |anchors|
  {
    if anchors != [] {
      GenresLength(anchors[..|anchors| - 1]);
    }
  }

  /** The absolute URLs of a set of hrefs. */
  function Absolute(hrefs: set<string>): set<string>
  {
    set h | h in hrefs :: Origin + h
  }

  /** The hrefs of the matched anchors, duplicates collapsed. */
  function Hrefs(anchors: seq<Anchor>): set<string>
  {
    set a | a in anchors :: a.href
  }

  /**
   * `get_stations_url` for the genre page's status and its matched anchors:
   * `None` when the page failed or nothing matched, otherwise the set of
   * absolute URLs, each the origin followed by some anchor's href and every
   * anchor's href represented.
   */
  function StationUrls(code: int, anchors: seq<Anchor>): (r: Option<set<string>>)
    ensures r.None? <==> code != StatusOk || anchors == []
    ensures r.Some? ==> forall i :: 0 <= i < |anchors| ==> Origin + anchors[i].href in r.value
    ensures r.Some? ==> forall u :: u in r.value ==>
      StartsWith(u, Origin) && u[|Origin|..] in Hrefs(anchors)
  {
    if code != StatusOk || anchors == [] then None
    else
      var r := set a | a in anchors :: Origin + a.href;
      assert forall i :: 0 <= i < |anchors| ==> anchors[i] in anchors;
      assert forall a :: a in anchors ==> (Origin + a.href)[|Origin|..] == a.href;
      Some(r)
  }

  /** Prefixing with the origin loses no href: the sets have the same size. */
  lemma {:induction false} AbsoluteSize(hrefs: set<string>)
    ensures |Absolute(hrefs)| == |hrefs|
    decreases hrefs
  {
    if hrefs != {} {
      var h :| h in hrefs;
      var rest := hrefs - {h};
      AbsoluteSize(rest);
      assert Absolute(hrefs) == Absolute(rest) + {Origin + h};
      forall u | u in Absolute(rest) ensures u != Origin + h {
        var h' :| h' in rest && u == Origin + h';
        assert u[|Origin|..] == h' != h == (Origin + h)[|Origin|..];
      }
    }
  }

  /** The station set has exactly one URL per distinct href on the page. */
  lemma StationCount(code: int, anchors: seq<Anchor>)
    requires code == StatusOk && anchors != []
    ensures StationUrls(code, anchors) == Some(Absolute(Hrefs(anchors)))
    ensures |StationUrls(code, anchors).value| == |Hrefs(anchors)|
  {
    AbsoluteSize(Hrefs(anchors));
    assert StationUrls(code, anchors).value == Absolute(Hrefs(anchors));
  }
}
