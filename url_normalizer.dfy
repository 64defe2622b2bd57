/**
  `YoutubeDownload.parse_url_str`: a URL that carries a playlist parameter is cut
  down to a single-video URL; any other reference (a URL or free search text)
  passes through unchanged.
 */
module UrlNormalizer {
  import opened Strings

  /** The playlist parameter whose presence triggers the cut. */
  const ListMarker: string := "&list="
  /** The query-parameter separator the URL is split on. */
  const Separator: char := '&'

  /**
    If the URL contains `&list=`, everything from its FIRST `&` on is dropped
    (that `&` need not be the one of `&list=`); otherwise the URL is returned as is.
   */
  function ParseUrlStr(url: string): (r: string)
    ensures !Contains(url, ListMarker) ==> r == url
    ensures Contains(url, ListMarker) ==>
      IsPrefix(r, url) && Separator !in r && |r| < |url| && url[|r|] == Separator
  {
    if Contains(url, ListMarker) then
      ContainsHeadChar(url, ListMarker);
      SplitFirst(url, Separator);
      Join([Separator], Split(url, Separator)[..1])
    else
      url
  }

  /** A reference without any `&` (free text, a bare video URL) is left alone. */
  lemma NoSeparatorUnchanged(url: string)
    requires Separator !in url
    ensures ParseUrlStr(url) == url
  {
    if Contains(url, ListMarker) {
      ContainsHeadChar(url, ListMarker);
    }
  }

  /**
    When `&list=` occurs, the result is exactly the prefix before the first `&`,
    even if another parameter such as `&t=5` comes before `&list=`.
   */
  lemma FirstSeparatorPrefix(url: string, i: nat)
    requires Contains(url, ListMarker)
    requires i < |url| && url[i] == Separator && Separator !in url[..i]
    ensures ParseUrlStr(url) == url[..i]
  {
    var r := ParseUrlStr(url);
    assert url[..i][|r|..] == url[|r|..i];
  }

  /** The result never contains `&list=`. */
  lemma ParseUrlStrDropsMarker(url: string)
    ensures !Contains(ParseUrlStr(url), ListMarker)
  {
    var r := ParseUrlStr(url);
    if Contains(r, ListMarker) {
      ContainsHeadChar(r, ListMarker);
    }
  }

  /** Normalising twice is normalising once. */
  lemma ParseUrlStrIdempotent(url: string)
    ensures ParseUrlStr(ParseUrlStr(url)) == ParseUrlStr(url)
  {
    ParseUrlStrDropsMarker(url);
  }

  /** A video URL followed by a playlist parameter is cut back to the video URL. */
  lemma PlaylistParameterCut(video: string, playlist: string)
    requires Separator !in video
    ensures ParseUrlStr(video + ListMarker + playlist) == video
  {
    var url := video + ListMarker + playlist;
    assert url[|video|..|video| + |ListMarker|] == ListMarker;
    ContainsAt(url, ListMarker, |video|);
    assert url[..|video|] == video;
    FirstSeparatorPrefix(url, |video|);
  }

  /**
    Any parameter between the video URL and the playlist parameter is cut too,
    because the cut is at the first `&`.
   */
  lemma EarlierParameterCut(video: string, param: string, playlist: string)
    requires Separator !in video
    ensures ParseUrlStr(video + [Separator] + param + ListMarker + playlist) == video
  {
    var url := video + [Separator] + param + ListMarker + playlist;
    var at := |video| + 1 + |param|;
    assert url[at..at + |ListMarker|] == ListMarker;
    ContainsAt(url, ListMarker, at);
    assert url[..|video|] == video;
    FirstSeparatorPrefix(url, |video|);
  }

  /** A playlist URL is cut back to its video URL. */
  lemma PlaylistUrlExample()
    ensures ParseUrlStr("https://youtube.com/watch?v=X&list=PL123") == "https://youtube.com/watch?v=X"
  {
    var video := "https://youtube.com/watch?v=X";
    PlaylistParameterCut(video, "PL123");
    assert video + ListMarker + "PL123" == "https://youtube.com/watch?v=X&list=PL123";
  }

  /** `&t=5` before `&list=` is dropped along with it. */
  lemma EarlierParameterDroppedExample()
    ensures ParseUrlStr("https://youtube.com/watch?v=X&t=5&list=PL123") == "https://youtube.com/watch?v=X"
  {
    var video := "https://youtube.com/watch?v=X";
    EarlierParameterCut(video, "t=5", "PL123");
    assert video + [Separator] + "t=5" + ListMarker + "PL123" == "https://youtube.com/watch?v=X&t=5&list=PL123";
  }
}
