/**
 * playwr.py: a browser opens `https://www.instagram.com/<username>/`, skips the
 * account when it was sent to a login page, collects the post links, and for
 * each post page with a truthy `og:video` meta content streams the video to
 * `downloads/<username>/<shortcode>.mp4`, where the shortcode is
 * `post_url.split('/')[-2]`. Page navigation, scrolling and HTTP are given as
 * their results.
 */
module BrowserVideos {
  import opened Wrappers
  import opened Text
  import opened Files
  import opened RunLog
  import opened Harvest

  newtype byte = b: int | 0 <= b < 256

  /** `page.locator("meta[property='og:video']").get_attribute('content')`: raises, or an optional string. */
  datatype Meta = MetaRaises | Content(content: Option<string>)

  /** `response.iter_content(8192)`: the chunks it yields, and whether it raises after them. */
  datatype Stream = Stream(chunks: seq<seq<byte>>, fails: bool)

  /** `requests.get(video_url, stream=True)`: raises, or a status code and a body. */
  datatype Http = HttpRaises | Response(status: int, body: Stream)

  /** One link of the profile page: its href, whether `page.goto` succeeds, the meta tag found there and the video's HTTP answer. */
  datatype PostPage = PostPage(href: string, opens: bool, meta: Meta, http: Http)

  /**
   * The browser session for one account: it fails before the links are known
   * (launch, navigation, scrolling, link evaluation), or it lands on `url` and
   * finds `links`; `closes` says whether closing context and browser succeeds.
   */
  datatype Browser = BrowserFails | Opened(url: string, links: seq<PostPage>, closes: bool)

  /** `extract_video_url_from_page`: the content when it is a non-empty string, None otherwise and on exception. */
  function ExtractVideoUrl(meta: Meta): (r: Option<string>)
    ensures r.Some? <==> meta.Content? && meta.content.Some? && meta.content.value != ""
    ensures r.Some? ==> r.value == meta.content.value
  {
    match meta
    case MetaRaises => None
    case Content(c) => if c.Some? && c.value != "" then c else None
  }

  function Concat(chunks: seq<seq<byte>>): seq<byte> {
    if chunks == [] then [] else Concat(chunks[..|chunks| - 1]) + chunks[|chunks| - 1]
  }

  /** The returned path, the tree afterwards and the bytes of the written file. */
  datatype Download = Download(path: Option<string>, tree: Tree, written: seq<byte>)

  /**
   * `download_video`: on status 200 the file `filename` is created in `saveDir`
   * and holds the chunks in order; the path is returned only when the stream
   * also completes. Any other status, or an exception, returns None.
   */
  function Downloaded(http: Http, saveDir: Path, filename: string, tree: Tree): (r: Download)
    ensures r.path.Some? <==> http.Response? && http.status == 200 && !http.body.fails
    ensures r.path.Some? ==> r.path.value == PathJoin(PathStr(saveDir), filename)
    ensures http.Response? && http.status == 200 ==>
              filename in Entries(r.tree, saveDir) && r.written == Concat(http.body.chunks)
    ensures !(http.Response? && http.status == 200) ==> r.tree == tree && r.written == []
  {
    match http
    case HttpRaises => Download(None, tree, [])
    case Response(status, body) =>
      if status != 200 then Download(None, tree, [])
      else
        var t := Store(tree, saveDir, [filename]);
        StoreKeepsListings(tree, saveDir, [filename]);
        Download(if body.fails then None else Some(PathJoin(PathStr(saveDir), filename)), t, Concat(body.chunks))
  }

  method DownloadVideo(http: Http, saveDir: Path, filename: string, tree: Tree)
    returns (path: Option<string>, tree': Tree, written: seq<byte>)
    ensures Download(path, tree', written) == Downloaded(http, saveDir, filename, tree)
  {
    if http.HttpRaises? || http.status != 200 {
      return None, tree, [];
    }
    var filePath := PathJoin(PathStr(saveDir), filename);
    tree' := Store(tree, saveDir, [filename]);
    written := [];
    var chunks := http.body.chunks;
    for i := 0 to |chunks|
      invariant written == Concat(chunks[..i])
    {
      assert chunks[..i + 1][..i] == chunks[..i];
      written := written + chunks[i];
    }
    assert chunks[..|chunks|] == chunks;
    path := if http.body.fails then None else Some(filePath);
  }

  /** The file name of a post's video. */
  function VideoFile(shortcode: string): string {
    shortcode + ".mp4"
  }

  /** The loop over the post links; None when an exception escapes to the account's handler. */
  function ScanLinks(username: string, links: seq<PostPage>, tree: Tree, logs: seq<Row>, timestamp: string): Outcome
    decreases |links|
  {
    if links == [] then Outcome(Some(logs), tree)
    else
      var link := links[0];
      if !link.opens then Outcome(None, tree)
      else if ExtractVideoUrl(link.meta).None? then ScanLinks(username, links[1..], tree, logs, timestamp)
      else match SecondToLast(link.href, '/')
        case None => Outcome(None, tree)
        case Some(shortcode) =>
          var d := Downloaded(link.http, UserDir(username), VideoFile(shortcode), tree);
          var rows := if d.path.Some? then [Record(username, shortcode, d.path.value, timestamp)] else [];
          ScanLinks(username, links[1..], d.tree, logs + rows, timestamp)
  }

  /** What `download_user_videos` returns (always a list) and the tree it leaves. */
  datatype Harvested = Harvested(logs: seq<Row>, tree: Tree)

  function BrowserHarvest(username: string, browser: Browser, tree: Tree, timestamp: string): Harvested {
    var t := MakeDirs(tree, UserDir(username));
    match browser
    case BrowserFails => Harvested([], t)
    case Opened(url, links, closes) =>
      if Contains(url, "login") then Harvested([], t)
      else
        var o := ScanLinks(username, links, t, [], timestamp);
        if o.logs.None? || !closes then Harvested([], o.tree) else Harvested(o.logs.value, o.tree)
  }

  method DownloadUserVideos(username: string, browser: Browser, tree: Tree, timestamp: string)
    returns (logs: seq<Row>, tree': Tree)
    ensures Harvested(logs, tree') == BrowserHarvest(username, browser, tree, timestamp)
  {
    var baseDir := UserDir(username);
    tree' := MakeDirs(tree, baseDir);
    if browser.BrowserFails? || Contains(browser.url, "login") {
      return [], tree';
    }
    var links := browser.links;
    ghost var start := tree';
    logs := [];
    var i := 0;
    while i < |links|
      invariant 0 <= i <= |links|
      invariant ScanLinks(username, links, start, [], timestamp) == ScanLinks(username, links[i..], tree', logs, timestamp)
    {
      var link := links[i];
      assert links[i..][0] == link && links[i..][1..] == links[i + 1..];
      if !link.opens {
        return [], tree';
      }
      var videoUrl := ExtractVideoUrl(link.meta);
      if videoUrl.None? {
        assert ScanLinks(username, links[i..], tree', logs, timestamp) == ScanLinks(username, links[i + 1..], tree', logs, timestamp);
      } else {
        var shortcode := SecondToLast(link.href, '/');
        if shortcode.None? {
          return [], tree';
        }
        ghost var logsBefore := logs;
        ghost var d := Downloaded(link.http, baseDir, VideoFile(shortcode.value), tree');
        ghost var rows := if d.path.Some? then [Record(username, shortcode.value, d.path.value, timestamp)] else [];
        assert ScanLinks(username, links[i..], tree', logs, timestamp) == ScanLinks(username, links[i + 1..], d.tree, logs + rows, timestamp);
        var filePath, written;
        filePath, tree', written := DownloadVideo(link.http, baseDir, VideoFile(shortcode.value), tree');
        assert tree' == d.tree && filePath == d.path;
        if filePath.Some? {
          logs := logs + [Record(username, shortcode.value, filePath.value, timestamp)];
        }
        assert logs == logsBefore + rows;
      }
      i := i + 1;
    }
    if !browser.closes {
      return [], tree';
    }
  }

  // ---------------------------------------------------------------- properties of the harvest

  /** The shortcode of `https://www.instagram.com/p/<code>/` is `<code>`, and its video file is `<code>.mp4`. */
  lemma PostUrlShortcode(code: string)
    requires '/' !in code
    ensures SecondToLast("https://www.instagram.com/p/" + code + "/", '/') == Some(code)
    ensures VideoFile(code) == code + ".mp4"
  {
    assert "https://www.instagram.com/p/" + code + "/" == "https://www.instagram.com/p" + ['/'] + code + ['/'];
    PieceBeforeTrailingSlash("https://www.instagram.com/p", code, '/');
  }

  /**
   * Every new row is `[username, shortcode, downloads/<username>/<shortcode>.mp4, ts]`
   * for a link whose page opened, whose video URL is truthy, whose shortcode is
   * `href.split('/')[-2]` and whose download answered 200 and completed; that
   * file is listed afterwards. There is at most one row per link.
   */
  lemma {:induction false} ScanLinksRecords(username: string, links: seq<PostPage>, tree: Tree, logs: seq<Row>, timestamp: string)
    ensures var r := ScanLinks(username, links, tree, logs, timestamp);
            && (forall d :: Entries(tree, d) <= Entries(r.tree, d))
            && (r.logs.Some? ==>
                  && logs <= r.logs.value
                  && |r.logs.value| <= |logs| + |links|
                  && forall row :: row in r.logs.value ==>
                       row in logs
                       || exists link, shortcode :: link in links
                            && ExtractVideoUrl(link.meta).Some? && SecondToLast(link.href, '/') == Some(shortcode)
                            && link.http.Response? && link.http.status == 200 && !link.http.body.fails
                            && VideoFile(shortcode) in Entries(r.tree, UserDir(username))
                            && row == Record(username, shortcode, PathJoin(PathStr(UserDir(username)), VideoFile(shortcode)), timestamp))
  {
    if links != [] {
      var link := links[0];
      if link.opens {
        if ExtractVideoUrl(link.meta).None? {
          ScanLinksRecords(username, links[1..], tree, logs, timestamp);
        } else if SecondToLast(link.href, '/').Some? {
          var shortcode := SecondToLast(link.href, '/').value;
          var d := Downloaded(link.http, UserDir(username), VideoFile(shortcode), tree);
          var rows := if d.path.Some? then [Record(username, shortcode, d.path.value, timestamp)] else [];
          if link.http.Response? && link.http.status == 200 {
            StoreKeepsListings(tree, UserDir(username), [VideoFile(shortcode)]);
          }
          ScanLinksRecords(username, links[1..], d.tree, logs + rows, timestamp);
          var r := ScanLinks(username, links[1..], d.tree, logs + rows, timestamp);
          assert Entries(d.tree, UserDir(username)) <= Entries(r.tree, UserDir(username));
        }
      }
    }
  }

  /** An account never yields more records than its page had post links. */
  lemma RecordsAtMostLinks(username: string, browser: Browser, tree: Tree, timestamp: string)
    ensures browser.Opened? ==> |BrowserHarvest(username, browser, tree, timestamp).logs| <= |browser.links|
    ensures browser.BrowserFails? ==> BrowserHarvest(username, browser, tree, timestamp).logs == []
  {
    if browser.Opened? && !Contains(browser.url, "login") {
      ScanLinksRecords(username, browser.links, MakeDirs(tree, UserDir(username)), [], timestamp);
    }
  }

  /**
   * A post link whose visit raises out of the link loop: `page.goto` fails, or a
   * video URL is found but the href has no `[-2]` piece. `extract_video_url_from_page`
   * and `download_video` catch their own exceptions.
   */
  predicate LinkRaises(link: PostPage) {
    !link.opens || (ExtractVideoUrl(link.meta).Some? && SecondToLast(link.href, '/').None?)
  }

  /** The link loop escapes to the handler exactly when one of its links raises. */
  lemma {:induction false} ScanLinksFails(username: string, links: seq<PostPage>, tree: Tree, logs: seq<Row>, timestamp: string)
    ensures ScanLinks(username, links, tree, logs, timestamp).logs.None? <==>
              exists i :: 0 <= i < |links| && LinkRaises(links[i])
    decreases |links|
  {
    if links != [] {
      var link := links[0];
      if link.opens && ExtractVideoUrl(link.meta).None? {
        ScanLinksFails(username, links[1..], tree, logs, timestamp);
        assert forall i :: 0 < i < |links| ==> links[i] == links[1..][i - 1];
      } else if link.opens && SecondToLast(link.href, '/').Some? {
        var shortcode := SecondToLast(link.href, '/').value;
        var d := Downloaded(link.http, UserDir(username), VideoFile(shortcode), tree);
        var rows := if d.path.Some? then [Record(username, shortcode, d.path.value, timestamp)] else [];
        ScanLinksFails(username, links[1..], d.tree, logs + rows, timestamp);
        assert forall i :: 0 < i < |links| ==> links[i] == links[1..][i - 1];
      } else {
        assert LinkRaises(links[0]);
      }
    }
  }

  /**
   * The catch-all handler: a failing browser, a login page, a raising link or a
   * failing close all give `[]`, discarding the rows gathered so far; otherwise
   * the account returns the rows of the link loop.
   */
  lemma BrowserHarvestFails(username: string, browser: Browser, tree: Tree, timestamp: string)
    ensures browser.BrowserFails? ==> BrowserHarvest(username, browser, tree, timestamp).logs == []
    ensures browser.Opened? && (Contains(browser.url, "login") || !browser.closes
                                || exists i :: 0 <= i < |browser.links| && LinkRaises(browser.links[i]))
            ==> BrowserHarvest(username, browser, tree, timestamp).logs == []
    ensures browser.Opened? && !Contains(browser.url, "login") && browser.closes
            && (forall i :: 0 <= i < |browser.links| ==> !LinkRaises(browser.links[i]))
            ==> var o := ScanLinks(username, browser.links, MakeDirs(tree, UserDir(username)), [], timestamp);
                o.logs.Some? && BrowserHarvest(username, browser, tree, timestamp).logs == o.logs.value
  {
    if browser.Opened? {
      ScanLinksFails(username, browser.links, MakeDirs(tree, UserDir(username)), [], timestamp);
    }
  }

  /** Redirected to a login page: no records, and nothing visited — only the user directory created. */
  lemma LoginSkipped(username: string, url: string, links: seq<PostPage>, closes: bool, tree: Tree, timestamp: string)
    requires Contains(url, "login")
    ensures BrowserHarvest(username, Opened(url, links, closes), tree, timestamp) == Harvested([], MakeDirs(tree, UserDir(username)))
  {
  }

  lemma BrowserHarvestRecords(username: string, browser: Browser, tree: Tree, timestamp: string)
    ensures var r := BrowserHarvest(username, browser, tree, timestamp);
            forall row :: row in r.logs ==>
              exists link, shortcode :: link in browser.links
                && ExtractVideoUrl(link.meta).Some? && SecondToLast(link.href, '/') == Some(shortcode)
                && link.http.Response? && link.http.status == 200 && !link.http.body.fails
                && VideoFile(shortcode) in Entries(r.tree, UserDir(username))
                && row == Record(username, shortcode, PathJoin(PathStr(UserDir(username)), VideoFile(shortcode)), timestamp)
  {
    if browser.Opened? && !Contains(browser.url, "login") {
      ScanLinksRecords(username, browser.links, MakeDirs(tree, UserDir(username)), [], timestamp);
    }
  }

  // ---------------------------------------------------------------- main loop

  /** `download_user_videos` as the main loop calls it; its list result is never None. */
  function Harvester(timestamp: string): (string, Browser, Tree) -> Outcome {
    (username: string, browser: Browser, tree: Tree) =>
      var h := BrowserHarvest(username, browser, tree, timestamp);
      Outcome(Some(h.logs), h.tree)
  }

  /** `for username in usernames`, in file order: scrape, then save the logs only when there are some. */
  method ScrapeAll(usernames: seq<string>, sessions: seq<Browser>, tree: Tree, log: LogFile, timestamp: string)
    returns (results: seq<Scraped>, tree': Tree, log': LogFile)
    requires |sessions| == |usernames|
    ensures Run(results, tree', log') == Scrape(usernames, sessions, tree, log, HeaderIfEmpty, Harvester(timestamp))
  {
    results, tree', log' := [], tree, log;
    for i := 0 to |usernames|
      invariant Run(results, tree', log') == Scrape(usernames[..i], sessions[..i], tree, log, HeaderIfEmpty, Harvester(timestamp))
    {
      ScrapeStep(usernames, sessions, tree, log, HeaderIfEmpty, Harvester(timestamp), i);
      var username := usernames[i];
      var logs;
      logs, tree' := DownloadUserVideos(username, sessions[i], tree', timestamp);
      if logs != [] {
        log' := SaveLogsToCsv(log', logs);
      }
      results := results + [Scraped(username, Some(logs))];
    }
    assert usernames[..|usernames|] == usernames && sessions[..|sessions|] == sessions;
  }
}
