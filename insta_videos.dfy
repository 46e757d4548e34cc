/**
 * test-video.py: `download_user_videos` keeps only the video posts of an
 * account, downloading each into `downloads/<username>` and logging every file
 * there whose name starts with the post's shortcode; the main loop scrapes the
 * accounts in their shuffled order and appends each non-empty result to the log
 * with the header-if-empty rule.
 */
module InstaVideos {
  import opened Wrappers
  import opened Text
  import opened Files
  import opened RunLog
  import opened Harvest

  const Video := "GraphVideo"

  /** The loop over the posts, from directory tree `tree` with `logs` gathered so far. */
  function ScanVideos(username: string, posts: seq<Post>, tree: Tree, logs: seq<Row>, timestamp: string): Outcome
    decreases |posts|
  {
    if posts == [] then Outcome(Some(logs), tree)
    else
      var post := posts[0];
      if post.typename != Video then ScanVideos(username, posts[1..], tree, logs, timestamp)
      else match post.fetch
        case Raised(_) => Outcome(None, tree)
        case Saved(files) =>
          var base := UserDir(username);
          var t := Store(tree, base, files);
          var rows := PostRecords(username, post.shortcode, PathStr(base), Entries(t, base), timestamp);
          ScanVideos(username, posts[1..], t, logs + rows, timestamp)
  }

  /** `download_user_videos(username)`: the directory is created first, then the profile is fetched and scanned. */
  function VideosHarvested(username: string, profile: Profile, tree: Tree, timestamp: string): Outcome {
    var t := MakeDirs(tree, UserDir(username));
    match profile
    case Unavailable(_) => Outcome(None, t)
    case Found(posts, ending) =>
      var r := ScanVideos(username, posts, t, [], timestamp);
      if r.logs.Some? && ending.RaisesAfter? then Outcome(None, r.tree) else r
  }

  method DownloadUserVideos(username: string, profile: Profile, tree: Tree, timestamp: string)
    returns (logs: Option<seq<Row>>, tree': Tree)
    ensures Outcome(logs, tree') == VideosHarvested(username, profile, tree, timestamp)
  {
    var baseDir := UserDir(username);
    tree' := MakeDirs(tree, baseDir);
    if profile.Unavailable? {
      return None, tree';
    }
    var posts := profile.posts;
    ghost var start := tree';
    var gathered: seq<Row> := [];
    var i := 0;
    while i < |posts|
      invariant 0 <= i <= |posts|
      invariant ScanVideos(username, posts, start, [], timestamp) == ScanVideos(username, posts[i..], tree', gathered, timestamp)
    {
      var post := posts[i];
      assert posts[i..][1..] == posts[i + 1..];
      if post.typename == Video {
        if post.fetch.Raised? {
          return None, tree';
        }
        tree' := Store(tree', baseDir, post.fetch.files);
        var rows := LogPostFiles(username, post.shortcode, PathStr(baseDir), Entries(tree', baseDir), timestamp);
        gathered := gathered + rows;
      }
      i := i + 1;
    }
    logs := if profile.ending.RaisesAfter? then None else Some(gathered);
  }

  // ---------------------------------------------------------------- properties of the harvest

  function VideoPosts(posts: seq<Post>): seq<Post> {
    if posts == [] then []
    else (if posts[0].typename == Video then [posts[0]] else []) + VideoPosts(posts[1..])
  }

  /** A post that is not a video is neither downloaded nor logged: dropping all of them changes nothing. */
  lemma {:induction false} OnlyVideosMatter(username: string, posts: seq<Post>, tree: Tree, logs: seq<Row>, timestamp: string)
    ensures ScanVideos(username, posts, tree, logs, timestamp) == ScanVideos(username, VideoPosts(posts), tree, logs, timestamp)
  {
    if posts != [] {
      var post := posts[0];
      if post.typename != Video {
        assert VideoPosts(posts) == VideoPosts(posts[1..]);
        OnlyVideosMatter(username, posts[1..], tree, logs, timestamp);
      } else {
        assert ([posts[0]] + VideoPosts(posts[1..]))[1..] == VideoPosts(posts[1..]);
        if post.fetch.Saved? {
          var base := UserDir(username);
          var t := Store(tree, base, post.fetch.files);
          var rows := PostRecords(username, post.shortcode, PathStr(base), Entries(t, base), timestamp);
          OnlyVideosMatter(username, posts[1..], t, logs + rows, timestamp);
        }
      }
    }
  }

  lemma OnlyVideosMatterForAccount(username: string, posts: seq<Post>, ending: Ending, tree: Tree, timestamp: string)
    ensures VideosHarvested(username, Found(posts, ending), tree, timestamp)
         == VideosHarvested(username, Found(VideoPosts(posts), ending), tree, timestamp)
  {
    OnlyVideosMatter(username, posts, MakeDirs(tree, UserDir(username)), [], timestamp);
  }

  /** The scan fails exactly when some video post's download raises. */
  lemma {:induction false} ScanVideosFails(username: string, posts: seq<Post>, tree: Tree, logs: seq<Row>, timestamp: string)
    ensures ScanVideos(username, posts, tree, logs, timestamp).logs.None? <==>
              exists i :: 0 <= i < |posts| && posts[i].typename == Video && posts[i].fetch.Raised?
  {
    if posts != [] {
      var post := posts[0];
      assert forall i :: 1 <= i < |posts| ==> posts[i] == posts[1..][i - 1];
      if post.typename != Video {
        ScanVideosFails(username, posts[1..], tree, logs, timestamp);
      } else if post.fetch.Saved? {
        var base := UserDir(username);
        var t := Store(tree, base, post.fetch.files);
        var rows := PostRecords(username, post.shortcode, PathStr(base), Entries(t, base), timestamp);
        ScanVideosFails(username, posts[1..], t, logs + rows, timestamp);
      }
    }
  }

  /**
   * An account yields None exactly when the profile lookup raises, a video
   * download raises, or the enumeration raises; all rows gathered are then dropped.
   */
  lemma VideosHarvestFails(username: string, profile: Profile, tree: Tree, timestamp: string)
    ensures VideosHarvested(username, profile, tree, timestamp).logs.None? <==>
              profile.Unavailable? || profile.ending.RaisesAfter?
              || exists i :: 0 <= i < |profile.posts| && profile.posts[i].typename == Video && profile.posts[i].fetch.Raised?
  {
    if profile.Found? {
      ScanVideosFails(username, profile.posts, MakeDirs(tree, UserDir(username)), [], timestamp);
    }
  }

  /**
   * Every row the scan adds is `[username, shortcode, join(base_dir, f), timestamp]`
   * for a video post and a file f, starting with its shortcode, that the user's
   * directory lists at the end.
   */
  lemma {:induction false} ScanVideosRecords(username: string, posts: seq<Post>, tree: Tree, logs: seq<Row>, timestamp: string)
    ensures var r := ScanVideos(username, posts, tree, logs, timestamp);
            var base := UserDir(username);
            && Entries(tree, base) <= Entries(r.tree, base)
            && (r.logs.Some? ==>
                  && logs <= r.logs.value
                  && forall row :: row in r.logs.value ==>
                       row in logs
                       || exists post, file :: post in posts && post.typename == Video
                            && file in Entries(r.tree, base) && StartsWith(file, post.shortcode)
                            && row == Record(username, post.shortcode, PathJoin(PathStr(base), file), timestamp))
  {
    if posts != [] {
      var post := posts[0];
      var base := UserDir(username);
      if post.typename != Video {
        ScanVideosRecords(username, posts[1..], tree, logs, timestamp);
      } else if post.fetch.Saved? {
        var t := Store(tree, base, post.fetch.files);
        StoreKeepsListings(tree, base, post.fetch.files);
        var rows := PostRecords(username, post.shortcode, PathStr(base), Entries(t, base), timestamp);
        ScanVideosRecords(username, posts[1..], t, logs + rows, timestamp);
        PostRecordsExactly(username, post.shortcode, PathStr(base), Entries(t, base), timestamp);
        var r := ScanVideos(username, posts[1..], t, logs + rows, timestamp);
        assert Entries(t, base) <= Entries(r.tree, base);
      }
    }
  }

  lemma VideosHarvestRecords(username: string, profile: Profile, tree: Tree, timestamp: string)
    requires profile.Found?
    ensures var r := VideosHarvested(username, profile, tree, timestamp);
            var base := UserDir(username);
            r.logs.Some? ==>
              forall row :: row in r.logs.value ==>
                exists post, file :: post in profile.posts && post.typename == Video
                  && file in Entries(r.tree, base) && StartsWith(file, post.shortcode)
                  && row == Record(username, post.shortcode, PathJoin(PathStr(base), file), timestamp)
  {
    ScanVideosRecords(username, profile.posts, MakeDirs(tree, UserDir(username)), [], timestamp);
  }

  // ---------------------------------------------------------------- main loop

  /** `download_user_videos` as the main loop calls it, with the run's timestamp. */
  function Harvester(timestamp: string): (string, Profile, Tree) -> Outcome {
    (username: string, profile: Profile, tree: Tree) => VideosHarvested(username, profile, tree, timestamp)
  }

  /**
   * The loop `for username in usernames` of test-video.py's main block, after
   * the prompts and the shuffle: scrape, then save the logs when they are truthy.
   */
  method ScrapeAll(order: seq<string>, profiles: seq<Profile>, tree: Tree, log: LogFile, timestamp: string)
    returns (results: seq<Scraped>, tree': Tree, log': LogFile)
    requires |profiles| == |order|
    ensures Run(results, tree', log') == Scrape(order, profiles, tree, log, HeaderIfEmpty, Harvester(timestamp))
  {
    results, tree', log' := [], tree, log;
    for i := 0 to |order|
      invariant Run(results, tree', log') == Scrape(order[..i], profiles[..i], tree, log, HeaderIfEmpty, Harvester(timestamp))
    {
      ScrapeStep(order, profiles, tree, log, HeaderIfEmpty, Harvester(timestamp), i);
      var username := order[i];
      var logs;
      logs, tree' := DownloadUserVideos(username, profiles[i], tree', timestamp);
      if logs.Some? && logs.value != [] {
        log' := SaveLogsToCsv(log', logs.value);
      }
      results := results + [Scraped(username, logs)];
    }
    assert order[..|order|] == order && profiles[..|profiles|] == profiles;
  }
}
