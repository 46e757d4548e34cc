/**
 * loadernog.py: `download_user_posts` takes at most the first 50 posts of an
 * account and routes each by typename — images to `downloads/<username>/images`,
 * videos to `.../videos`, anything else to `downloads/<username>` — logging the
 * files of the target directory that start with the shortcode. The main loop
 * appends each non-empty result with the header-if-absent rule and counts down
 * a random pause after every account.
 */
module InstaPosts {
  import opened Wrappers
  import opened Text
  import opened Files
  import opened RunLog
  import opened Harvest
  import Operator

  const PostCap := 50
  const Image := "GraphImage"
  const Video := "GraphVideo"

  function ImageDir(username: string): Path {
    UserDir(username) + ["images"]
  }

  function VideoDir(username: string): Path {
    UserDir(username) + ["videos"]
  }

  /** Where a post of this typename is downloaded. */
  function TargetDir(username: string, typename: string): Path {
    if typename == Image then ImageDir(username)
    else if typename == Video then VideoDir(username)
    else UserDir(username)
  }

  /** The three target directories are distinct: images, videos and every other typename never share one. */
  lemma Routing(username: string, typename: string)
    ensures TargetDir(username, typename) == ImageDir(username) <==> typename == Image
    ensures TargetDir(username, typename) == VideoDir(username) <==> typename == Video
    ensures TargetDir(username, typename) == UserDir(username) <==> typename != Image && typename != Video
  {
    assert ImageDir(username)[2] != VideoDir(username)[2];
    assert |ImageDir(username)| != |UserDir(username)|;
  }

  /** The posts `enumerate` reaches before `idx >= 50` breaks the loop. */
  function FirstPosts(posts: seq<Post>): (r: seq<Post>)
    ensures |r| <= PostCap && r <= posts
    ensures |posts| <= PostCap ==> r == posts
  {
    if |posts| > PostCap then posts[..PostCap] else posts
  }

  /**
   * The loop body for one post: its target directory by typename, the download
   * (None when it raises), and the rows for the files then listed there whose
   * names start with the shortcode.
   */
  function PostStep(username: string, post: Post, tree: Tree, timestamp: string): Outcome {
    var target := TargetDir(username, post.typename);
    match post.fetch
    case Raised(_) => Outcome(None, tree)
    case Saved(files) =>
      var t := Store(tree, target, files);
      Outcome(Some(PostRecords(username, post.shortcode, PathStr(target), Entries(t, target), timestamp)), t)
  }

  /** The loop over the given posts, from directory tree `tree` with `logs` gathered so far: stops at the first raise. */
  function ScanPosts(username: string, posts: seq<Post>, tree: Tree, logs: seq<Row>, timestamp: string): Outcome
    decreases |posts|
  {
    if posts == [] then Outcome(Some(logs), tree)
    else
      var o := PostStep(username, posts[0], tree, timestamp);
      if o.logs.None? then o else ScanPosts(username, posts[1..], o.tree, logs + o.logs.value, timestamp)
  }

  /** Both media directories (and so the user directory) are created before the profile is fetched. */
  function AccountDirs(tree: Tree, username: string): Tree {
    MakeDirs(MakeDirs(tree, ImageDir(username)), VideoDir(username))
  }

  /**
   * `download_user_posts(username)`. enumerate asks the posts for one more
   * element after the 50th, so the enumeration's ending is reached — and its
   * exception raised — only when there are at most 50 posts.
   */
  function PostsHarvested(username: string, profile: Profile, tree: Tree, timestamp: string): Outcome {
    var t := AccountDirs(tree, username);
    match profile
    case Unavailable(_) => Outcome(None, t)
    case Found(posts, ending) =>
      var r := ScanPosts(username, FirstPosts(posts), t, [], timestamp);
      if r.logs.Some? && |posts| <= PostCap && ending.RaisesAfter? then Outcome(None, r.tree) else r
  }

  /** Lines for one post of `download_user_posts`: pick the directory, download, log the matching files. */
  method DownloadPost(username: string, post: Post, tree: Tree, timestamp: string)
    returns (rows: Option<seq<Row>>, tree': Tree)
    ensures Outcome(rows, tree') == PostStep(username, post, tree, timestamp)
  {
    var targetDir := TargetDir(username, post.typename);
    if post.fetch.Raised? {
      return None, tree;
    }
    tree' := Store(tree, targetDir, post.fetch.files);
    var found := LogPostFiles(username, post.shortcode, PathStr(targetDir), Entries(tree', targetDir), timestamp);
    rows := Some(found);
  }

  method DownloadUserPosts(username: string, profile: Profile, tree: Tree, timestamp: string)
    returns (logs: Option<seq<Row>>, tree': Tree)
    ensures Outcome(logs, tree') == PostsHarvested(username, profile, tree, timestamp)
  {
    tree' := MakeDirs(tree, ImageDir(username));
    tree' := MakeDirs(tree', VideoDir(username));
    if profile.Unavailable? {
      return None, tree';
    }
    var posts := profile.posts;
    ghost var taken := FirstPosts(posts);
    ghost var scan := ScanPosts(username, taken, tree', [], timestamp);
    HarvestedFromScan(username, profile, tree, timestamp, scan);
    assert taken == posts[..|taken|];
    var gathered: seq<Row> := [];
    var idx := 0;
    while idx < |posts|
      invariant 0 <= idx <= |posts| && idx <= PostCap && idx <= |taken|
      invariant scan == ScanPosts(username, taken[idx..], tree', gathered, timestamp)
    {
      if idx >= PostCap {
        break;
      }
      var post := posts[idx];
      assert taken[idx..][0] == post && taken[idx..][1..] == taken[idx + 1..];
      var rows;
      rows, tree' := DownloadPost(username, post, tree', timestamp);
      if rows.None? {
        return None, tree';
      }
      gathered := gathered + rows.value;
      idx := idx + 1;
    }
    assert taken[idx..] == [];
    assert idx == |posts| <==> |posts| <= PostCap;
    logs := if idx == |posts| && profile.ending.RaisesAfter? then None else Some(gathered);
  }

  /** The account's result, given the result of the scan over its first posts. */
  lemma HarvestedFromScan(username: string, profile: Profile, tree: Tree, timestamp: string, scan: Outcome)
    requires profile.Found?
    requires scan == ScanPosts(username, FirstPosts(profile.posts), AccountDirs(tree, username), [], timestamp)
    ensures PostsHarvested(username, profile, tree, timestamp)
         == if scan.logs.Some? && |profile.posts| <= PostCap && profile.ending.RaisesAfter? then Outcome(None, scan.tree) else scan
  {
  }

  // ---------------------------------------------------------------- properties of the harvest

  /** Only the first 50 posts count: later posts, and how the enumeration ends after them, are never looked at. */
  lemma CapFirstFifty(username: string, posts: seq<Post>, ending: Ending, tree: Tree, timestamp: string)
    requires |posts| > PostCap
    ensures PostsHarvested(username, Found(posts, ending), tree, timestamp)
         == PostsHarvested(username, Found(posts[..PostCap], Exhausted), tree, timestamp)
  {
  }

  /** The scan fails exactly when some download raises, whatever the post's type. */
  lemma {:induction false} ScanPostsFails(username: string, posts: seq<Post>, tree: Tree, logs: seq<Row>, timestamp: string)
    ensures ScanPosts(username, posts, tree, logs, timestamp).logs.None? <==>
              exists i :: 0 <= i < |posts| && posts[i].fetch.Raised?
  {
    if posts != [] {
      var post := posts[0];
      assert forall i :: 1 <= i < |posts| ==> posts[i] == posts[1..][i - 1];
      if post.fetch.Saved? {
        var target := TargetDir(username, post.typename);
        var t := Store(tree, target, post.fetch.files);
        var rows := PostRecords(username, post.shortcode, PathStr(target), Entries(t, target), timestamp);
        ScanPostsFails(username, posts[1..], t, logs + rows, timestamp);
      }
    }
  }

  /**
   * An account yields None exactly when the profile lookup raises, one of the
   * first 50 downloads raises, or the enumeration raises before a 51st post.
   */
  lemma PostsHarvestFails(username: string, profile: Profile, tree: Tree, timestamp: string)
    ensures PostsHarvested(username, profile, tree, timestamp).logs.None? <==>
              || profile.Unavailable?
              || (|profile.posts| <= PostCap && profile.ending.RaisesAfter?)
              || exists i :: 0 <= i < |profile.posts| && i < PostCap && profile.posts[i].fetch.Raised?
  {
    if profile.Found? {
      var taken := FirstPosts(profile.posts);
      ScanPostsFails(username, taken, AccountDirs(tree, username), [], timestamp);
      assert forall i :: 0 <= i < |taken| ==> taken[i] == profile.posts[i];
    }
  }

  /**
   * Every row is `[username, shortcode, join(target_dir, f), timestamp]` for one of
   * the scanned posts, its target directory by typename, and a file f there,
   * listed at the end, that starts with the shortcode.
   */
  lemma {:induction false} ScanPostsRecords(username: string, posts: seq<Post>, tree: Tree, logs: seq<Row>, timestamp: string)
    ensures var r := ScanPosts(username, posts, tree, logs, timestamp);
            && (forall d :: Entries(tree, d) <= Entries(r.tree, d))
            && (r.logs.Some? ==>
                  && logs <= r.logs.value
                  && forall row :: row in r.logs.value ==>
                       row in logs
                       || exists post, file :: post in posts
                            && file in Entries(r.tree, TargetDir(username, post.typename)) && StartsWith(file, post.shortcode)
                            && row == Record(username, post.shortcode, PathJoin(PathStr(TargetDir(username, post.typename)), file), timestamp))
  {
    if posts != [] {
      var post := posts[0];
      if post.fetch.Saved? {
        var target := TargetDir(username, post.typename);
        var t := Store(tree, target, post.fetch.files);
        var rows := PostRecords(username, post.shortcode, PathStr(target), Entries(t, target), timestamp);
        StoreKeepsListings(tree, target, post.fetch.files);
        ScanPostsRecords(username, posts[1..], t, logs + rows, timestamp);
        PostRecordsExactly(username, post.shortcode, PathStr(target), Entries(t, target), timestamp);
        var r := ScanPosts(username, posts[1..], t, logs + rows, timestamp);
        assert Entries(t, target) <= Entries(r.tree, target);
      }
    }
  }

  lemma PostsHarvestRecords(username: string, profile: Profile, tree: Tree, timestamp: string)
    requires profile.Found?
    ensures var r := PostsHarvested(username, profile, tree, timestamp);
            r.logs.Some? ==>
              forall row :: row in r.logs.value ==>
                exists post, file :: post in FirstPosts(profile.posts)
                  && file in Entries(r.tree, TargetDir(username, post.typename)) && StartsWith(file, post.shortcode)
                  && row == Record(username, post.shortcode, PathJoin(PathStr(TargetDir(username, post.typename)), file), timestamp)
  {
    ScanPostsRecords(username, FirstPosts(profile.posts), AccountDirs(tree, username), [], timestamp);
  }

  /** Both media directories exist afterwards, whatever happened remotely. */
  lemma {:induction false} ScanPostsKeepsDirs(username: string, posts: seq<Post>, tree: Tree, logs: seq<Row>, timestamp: string)
    ensures forall d :: d in tree ==> d in ScanPosts(username, posts, tree, logs, timestamp).tree
  {
    if posts != [] && posts[0].fetch.Saved? {
      var post := posts[0];
      var target := TargetDir(username, post.typename);
      var t := Store(tree, target, post.fetch.files);
      ScanPostsKeepsDirs(username, posts[1..], t, logs + PostRecords(username, post.shortcode, PathStr(target), Entries(t, target), timestamp), timestamp);
    }
  }

  lemma PostDirsExist(username: string, profile: Profile, tree: Tree, timestamp: string)
    ensures var r := PostsHarvested(username, profile, tree, timestamp);
            ImageDir(username) in r.tree && VideoDir(username) in r.tree
  {
    MakeDirsCreates(tree, ImageDir(username));
    MakeDirsCreates(MakeDirs(tree, ImageDir(username)), VideoDir(username));
    if profile.Found? {
      ScanPostsKeepsDirs(username, FirstPosts(profile.posts), AccountDirs(tree, username), [], timestamp);
    }
  }

  // ---------------------------------------------------------------- main loop

  /** What the i-th pass of the loop meets: the remote account and the value `random.randint` gives. */
  datatype Visit = Visit(profile: Profile, sleep: int)

  /** The countdown frames of all passes, one countdown per account. */
  function AllFrames(visits: seq<Visit>): seq<string>
    requires forall i :: 0 <= i < |visits| ==> visits[i].sleep >= 0
  {
    if visits == [] then [] else AllFrames(visits[..|visits| - 1]) + Operator.Frames(visits[|visits| - 1].sleep)
  }

  /** `download_user_posts` as the main loop calls it, with the run's timestamp. */
  function Harvester(timestamp: string): (string, Visit, Tree) -> Outcome {
    (username: string, visit: Visit, tree: Tree) => PostsHarvested(username, visit.profile, tree, timestamp)
  }

  /**
   * The loop `for username in usernames` of loadernog.py's main block, after the
   * prompts and the shuffle: scrape, log if non-empty, then count down the
   * pause drawn in [minSleep, maxSleep] — after the last account too.
   */
  method ScrapeAll(order: seq<string>, visits: seq<Visit>, minSleep: int, maxSleep: int, tree: Tree, log: LogFile, timestamp: string)
    returns (results: seq<Scraped>, tree': Tree, log': LogFile, frames: seq<string>)
    requires |visits| == |order|
    requires 0 <= minSleep
    requires forall i :: 0 <= i < |visits| ==> minSleep <= visits[i].sleep <= maxSleep
    ensures Run(results, tree', log') == Scrape(order, visits, tree, log, HeaderIfAbsent, Harvester(timestamp))
    ensures frames == AllFrames(visits)
  {
    results, tree', log', frames := [], tree, log, [];
    for i := 0 to |order|
      invariant Run(results, tree', log') == Scrape(order[..i], visits[..i], tree, log, HeaderIfAbsent, Harvester(timestamp))
      invariant frames == AllFrames(visits[..i])
    {
      ScrapeStep(order, visits, tree, log, HeaderIfAbsent, Harvester(timestamp), i);
      AllFramesStep(visits, i);
      var username := order[i];
      var logs;
      logs, tree' := DownloadUserPosts(username, visits[i].profile, tree', timestamp);
      if logs.Some? && logs.value != [] {
        log' := LogToCsv(log', logs.value);
      }
      var sleepTime := visits[i].sleep;
      var shown := Operator.Countdown(sleepTime);
      frames := frames + shown;
      results := results + [Scraped(username, logs)];
    }
    assert order[..|order|] == order && visits[..|visits|] == visits;
  }

  lemma AllFramesStep(visits: seq<Visit>, i: nat)
    requires i < |visits| && forall j :: 0 <= j < |visits| ==> visits[j].sleep >= 0
    ensures AllFrames(visits[..i + 1]) == AllFrames(visits[..i]) + Operator.Frames(visits[i].sleep)
  {
    assert visits[..i + 1][..i] == visits[..i];
  }

  /** The pauses drawn for the accounts, in seconds. */
  function SleepTotal(visits: seq<Visit>): int {
    if visits == [] then 0 else SleepTotal(visits[..|visits| - 1]) + visits[|visits| - 1].sleep
  }

  /** One frame per second of every pause, the last account's included, and no frame shows "00:00". */
  lemma {:induction false} CountdownAfterEach(visits: seq<Visit>)
    requires forall i :: 0 <= i < |visits| ==> visits[i].sleep >= 0
    ensures |AllFrames(visits)| == SleepTotal(visits)
    ensures forall i :: 0 <= i < |AllFrames(visits)| ==> AllFrames(visits)[i] != "00:00"
  {
    if visits != [] {
      var n := |visits| - 1;
      CountdownAfterEach(visits[..n]);
      Operator.FramesNeverZero(visits[n].sleep);
      var prev := AllFrames(visits[..n]);
      var last := Operator.Frames(visits[n].sleep);
      assert AllFrames(visits) == prev + last;
      assert forall i :: |prev| <= i < |prev| + |last| ==> (prev + last)[i] == last[i - |prev|];
    }
  }
}
