/**
 * What the instaloader scripts see of the remote account, as data: each post
 * with its shortcode, its typename and what `L.download_post` does for it, and
 * how the enumeration of `profile.get_posts()` ends. Also the step both
 * scripts share after a download: one log row per listed file whose name starts
 * with the post's shortcode.
 */
module Harvest {
  import opened Wrappers
  import opened Text
  import opened Files
  import opened RunLog

  /** The two exception handlers: TooManyRequestsException (600 s sleep) and any other exception. */
  datatype Failure = TooManyRequests | OtherError

  /** `L.download_post(post, target=d)`: the names of the files it writes into d, or the exception it raises. */
  datatype Fetch = Saved(files: seq<string>) | Raised(failure: Failure)

  datatype Post = Post(shortcode: string, typename: string, fetch: Fetch)

  /** How iterating `profile.get_posts()` ends after the posts: normally, or by raising. */
  datatype Ending = Exhausted | RaisesAfter(failure: Failure)

  /** `instaloader.Profile.from_username`: raises, or gives the lazily enumerated posts. */
  datatype Profile = Unavailable(failure: Failure) | Found(posts: seq<Post>, ending: Ending)

  /** What `download_user_*` returns (None after any exception) and the directory tree it leaves behind. */
  datatype Outcome = Outcome(logs: Option<seq<Row>>, tree: Tree)

  /** `downloads/<username>` */
  function UserDir(username: string): Path {
    ["downloads", username]
  }

  /** One log row: `[username, post.shortcode, file_path, timestamp]`. */
  function Record(username: string, shortcode: string, filePath: string, timestamp: string): Row {
    [username, shortcode, filePath, timestamp]
  }

  /** The rows for the entries of `listing` (the listing of directory `dir`) whose names start with `shortcode`, in listing order. */
  function PostRecords(username: string, shortcode: string, dir: string, listing: seq<string>, timestamp: string): seq<Row> {
    if listing == [] then []
    else
      var file := listing[|listing| - 1];
      PostRecords(username, shortcode, dir, listing[..|listing| - 1], timestamp)
      + (if StartsWith(file, shortcode) then [Record(username, shortcode, PathJoin(dir, file), timestamp)] else [])
  }

  /** `for file in os.listdir(target_dir): if file.startswith(post.shortcode): logs.append(...)` */
  method LogPostFiles(username: string, shortcode: string, dir: string, listing: seq<string>, timestamp: string)
    returns (rows: seq<Row>)
    ensures rows == PostRecords(username, shortcode, dir, listing, timestamp)
  {
    rows := [];
    for i := 0 to |listing|
      invariant rows == PostRecords(username, shortcode, dir, listing[..i], timestamp)
    {
      assert listing[..i + 1][..i] == listing[..i];
      var file := listing[i];
      if StartsWith(file, shortcode) {
        rows := rows + [Record(username, shortcode, PathJoin(dir, file), timestamp)];
      }
    }
    assert listing[..|listing|] == listing;
  }

  /** Exactly one row per listed file that starts with the shortcode, and nothing else. */
  lemma {:induction false} PostRecordsExactly(username: string, shortcode: string, dir: string, listing: seq<string>, timestamp: string)
    ensures forall row :: row in PostRecords(username, shortcode, dir, listing, timestamp) <==>
              exists file :: file in listing && StartsWith(file, shortcode) && row == Record(username, shortcode, PathJoin(dir, file), timestamp)
    ensures |PostRecords(username, shortcode, dir, listing, timestamp)| <= |listing|
  {
    if listing != [] {
      var init := listing[..|listing| - 1];
      PostRecordsExactly(username, shortcode, dir, init, timestamp);
      assert listing == init + [listing[|listing| - 1]];
    }
  }

  // ---------------------------------------------------------------- main loop

  /** One pass of the main loop: the account and what its download function returned. */
  datatype Scraped = Scraped(username: string, logs: Option<seq<Row>>)

  /** `if logs:` — None and [] are both falsy. */
  predicate Truthy(logs: Option<seq<Row>>) {
    logs.Some? && logs.value != []
  }

  /** The usernames of the results, in order. */
  function Names(results: seq<Scraped>): seq<string> {
    seq(|results|, i requires 0 <= i < |results| => results[i].username)
  }

  /** The batches the main loop hands to the log: the non-empty results, in order. */
  function Batches(results: seq<Scraped>): seq<seq<Row>> {
    if results == [] then []
    else
      var last := results[|results| - 1];
      Batches(results[..|results| - 1]) + (if Truthy(last.logs) then [last.logs.value] else [])
  }

  lemma BatchesStep(results: seq<Scraped>, last: Scraped)
    ensures Batches(results + [last]) == Batches(results) + (if Truthy(last.logs) then [last.logs.value] else [])
    ensures Names(results + [last]) == Names(results) + [last.username]
  {
    assert (results + [last])[..|results|] == results;
  }

  /** After one more pass of the main loop the log still holds the appends of all non-empty results so far. */
  lemma AppendStep(rule: HeaderRule, log: LogFile, results: seq<Scraped>, last: Scraped, before: LogFile)
    requires before == AppendAll(rule, log, Batches(results))
    ensures (if Truthy(last.logs) then Append(rule, before, last.logs.value) else before)
         == AppendAll(rule, log, Batches(results + [last]))
  {
    BatchesStep(results, last);
    assert Batches(results) + [] == Batches(results);
    if Truthy(last.logs) {
      AppendAllStep(rule, log, Batches(results), last.logs.value);
    }
  }

  /** The usernames scraped so far, the directory tree and the log. */
  datatype Run = Run(results: seq<Scraped>, tree: Tree, log: LogFile)

  /**
   * The main loop of a script: for each username of `order`, in order, the
   * account's download function `harvest` runs on what the account meets
   * (`visits`) and the current tree, and a truthy result is appended to the log
   * with the script's header rule. Every username is visited once, in order,
   * and the log is the appends of the non-empty results.
   */
  function Scrape<V>(order: seq<string>, visits: seq<V>, tree: Tree, log: LogFile, rule: HeaderRule,
                     harvest: (string, V, Tree) -> Outcome): (r: Run)
    requires |visits| == |order|
  {
    if order == [] then Run([], tree, log)
    else
      var n := |order| - 1;
      var prev := Scrape(order[..n], visits[..n], tree, log, rule, harvest);
      var o := harvest(order[n], visits[n], prev.tree);
      Run(prev.results + [Scraped(order[n], o.logs)], o.tree,
          if Truthy(o.logs) then Append(rule, prev.log, o.logs.value) else prev.log)
  }

  /** The main loop visits every username once, in order. */
  lemma {:induction false} ScrapeNames<V>(order: seq<string>, visits: seq<V>, tree: Tree, log: LogFile, rule: HeaderRule,
                                          harvest: (string, V, Tree) -> Outcome)
    requires |visits| == |order|
    ensures Names(Scrape(order, visits, tree, log, rule, harvest).results) == order
  {
    if order != [] {
      var n := |order| - 1;
      ScrapeNames(order[..n], visits[..n], tree, log, rule, harvest);
      var prev := Scrape(order[..n], visits[..n], tree, log, rule, harvest);
      var last := Scraped(order[n], harvest(order[n], visits[n], prev.tree).logs);
      assert Scrape(order, visits, tree, log, rule, harvest).results == prev.results + [last];
      BatchesStep(prev.results, last);
      assert order == order[..n] + [order[n]];
    }
  }

  /** The log after the main loop is the appends of the non-empty results, in order, with the script's header rule. */
  lemma {:induction false} ScrapeLogs<V>(order: seq<string>, visits: seq<V>, tree: Tree, log: LogFile, rule: HeaderRule,
                                         harvest: (string, V, Tree) -> Outcome)
    requires |visits| == |order|
    ensures var r := Scrape(order, visits, tree, log, rule, harvest);
            r.log == AppendAll(rule, log, Batches(r.results))
  {
    if order != [] {
      var n := |order| - 1;
      ScrapeLogs(order[..n], visits[..n], tree, log, rule, harvest);
      var prev := Scrape(order[..n], visits[..n], tree, log, rule, harvest);
      var o := harvest(order[n], visits[n], prev.tree);
      var last := Scraped(order[n], o.logs);
      assert Scrape(order, visits, tree, log, rule, harvest)
          == Run(prev.results + [last], o.tree, if Truthy(o.logs) then Append(rule, prev.log, o.logs.value) else prev.log);
      AppendStep(rule, log, prev.results, last, prev.log);
    }
  }

  /** One more account, unfolded. */
  lemma ScrapeStep<V>(order: seq<string>, visits: seq<V>, tree: Tree, log: LogFile, rule: HeaderRule,
                      harvest: (string, V, Tree) -> Outcome, i: nat)
    requires |visits| == |order| && i < |order|
    ensures var prev := Scrape(order[..i], visits[..i], tree, log, rule, harvest);
            var o := harvest(order[i], visits[i], prev.tree);
            Scrape(order[..i + 1], visits[..i + 1], tree, log, rule, harvest)
              == Run(prev.results + [Scraped(order[i], o.logs)], o.tree,
                     if Truthy(o.logs) then Append(rule, prev.log, o.logs.value) else prev.log)
  {
    assert order[..i + 1][..i] == order[..i] && visits[..i + 1][..i] == visits[..i];
  }

  /** Every loaded username is scraped exactly once, whatever permutation the shuffle picked. */
  lemma EachUsernameOnce<V>(usernames: seq<string>, order: seq<string>, visits: seq<V>, tree: Tree, log: LogFile,
                            rule: HeaderRule, harvest: (string, V, Tree) -> Outcome)
    requires multiset(order) == multiset(usernames) && |visits| == |order|
    ensures multiset(Names(Scrape(order, visits, tree, log, rule, harvest).results)) == multiset(usernames)
  {
    ScrapeNames(order, visits, tree, log, rule, harvest);
  }
}
