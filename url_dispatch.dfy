/**
 * selenium.py: each URL of the input sheet is sent to the Instagram handler
 * (when it contains `instagram.com`), else to the Facebook placeholder (when
 * it contains `facebook.com`), else left with empty fields, and every URL
 * gives one output row `[URL, Image Path, Video Path, Caption]`. The session
 * handling and the post lookup of instaloader are given as their results.
 */
module UrlDispatch {
  import opened Wrappers
  import opened Text
  import opened Files
  import opened Harvest

  const BaseFolder := "scraped_content"
  const InstagramFolder := "scraped_content/Instagram"
  const FacebookFolder := "scraped_content/Facebook"

  function InstagramDir(): Path {
    [BaseFolder, "Instagram"]
  }

  function FacebookDir(): Path {
    [BaseFolder, "Facebook"]
  }

  /** `setup_directories`: both folders created with parents, an existing one left as it is. */
  function Setup(tree: Tree): (r: Tree)
    ensures InstagramDir() in r && FacebookDir() in r
    ensures forall e :: e in tree ==> e in r
  {
    MakeDirsCreates(tree, InstagramDir());
    MakeDirsCreates(MakeDirs(tree, InstagramDir()), FacebookDir());
    MakeDirs(MakeDirs(tree, InstagramDir()), FacebookDir())
  }

  method SetupDirectories(tree: Tree) returns (instagramFolder: string, facebookFolder: string, tree': Tree)
    ensures instagramFolder == InstagramFolder && facebookFolder == FacebookFolder
    ensures tree' == Setup(tree)
  {
    instagramFolder := PathJoin(BaseFolder, "Instagram");
    facebookFolder := PathJoin(BaseFolder, "Facebook");
    FolderNames();
    tree' := MakeDirs(tree, InstagramDir());
    tree' := MakeDirs(tree', FacebookDir());
  }

  /** The returned folder strings name the directories the setup creates. */
  lemma FolderNames()
    ensures PathJoin(BaseFolder, "Instagram") == PathStr(InstagramDir()) == InstagramFolder
    ensures PathJoin(BaseFolder, "Facebook") == PathStr(FacebookDir()) == FacebookFolder
  {
    assert InstagramDir()[1..] == ["Instagram"] && FacebookDir()[1..] == ["Facebook"];
  }

  /** `exist_ok=True`: setting up a second time changes nothing. */
  lemma SetupIdempotent(tree: Tree)
    ensures Setup(Setup(tree)) == Setup(tree)
  {
    var t := Setup(tree);
    MakeDirsExisting(t, InstagramDir());
    MakeDirsExisting(t, FacebookDir());
  }

  /** The image path, video path and caption a handler returns; None stands for Python's None. */
  datatype Media = Media(imagePath: Option<string>, videoPath: Option<string>, caption: Option<string>)

  const NoMedia := Media(None, None, None)

  /** Loading the saved session: it loads, or the fallback `L.login` and `save_session_to_file` succeed, or that fallback raises. */
  datatype Session = SessionLoads | LoginSucceeds | LoginFails

  /** `instaloader.Post.from_shortcode`: raises, or a post with its video flag, its caption and what `L.download_post` does. */
  datatype Lookup = LookupRaises | PostFound(isVideo: bool, caption: Option<string>, fetch: Fetch)

  /** What the remote side does for one URL; consulted only for Instagram URLs. */
  datatype Remote = Remote(session: Session, lookup: Lookup)

  /** `post.caption if post.caption else "No caption"`: never an empty caption. */
  function Caption(caption: Option<string>): (r: string)
    ensures r != ""
    ensures caption.Some? && caption.value != "" ==> r == caption.value
    ensures !(caption.Some? && caption.value != "") ==> r == "No caption"
  {
    if caption.Some? && caption.value != "" then caption.value else "No caption"
  }

  /**
   * `download_instagram_post`; None when the login fallback raises, which no
   * handler catches. The shortcode is `url.split("/")[-2]`; a post is either
   * a video with path `<folder>/<shortcode>.mp4` or an image with path
   * `<folder>/<shortcode>.jpg`, never both, and a downloaded post always has a
   * caption. Every exception after the session step gives three Nones.
   */
  function InstagramPost(url: string, remote: Remote, folder: string): Option<Media> {
    if remote.session.LoginFails? then None
    else match SecondToLast(url, '/')
      case None => Some(NoMedia)
      case Some(shortcode) =>
        match remote.lookup
        case LookupRaises => Some(NoMedia)
        case PostFound(isVideo, caption, fetch) =>
          if fetch.Raised? then Some(NoMedia)
          else if isVideo then Some(Media(None, Some(PathJoin(folder, shortcode + ".mp4")), Some(Caption(caption))))
          else Some(Media(Some(PathJoin(folder, shortcode + ".jpg")), None, Some(Caption(caption))))
  }

  /**
   * Outside the login failure the handler always returns, with three Nones
   * or with a caption and exactly one of the two paths: `<folder>/<shortcode>.mp4`
   * for a video, `<folder>/<shortcode>.jpg` otherwise.
   */
  lemma InstagramPostShape(url: string, remote: Remote, folder: string)
    ensures var r := InstagramPost(url, remote, folder);
            && (r.None? <==> remote.session.LoginFails?)
            && (r.Some? && r.value != NoMedia ==>
                  && SecondToLast(url, '/').Some? && remote.lookup.PostFound? && remote.lookup.fetch.Saved?
                  && r.value.caption == Some(Caption(remote.lookup.caption))
                  && var shortcode := SecondToLast(url, '/').value;
                     if remote.lookup.isVideo then r.value.imagePath.None? && r.value.videoPath == Some(PathJoin(folder, shortcode + ".mp4"))
                     else r.value.imagePath == Some(PathJoin(folder, shortcode + ".jpg")) && r.value.videoPath.None?)
  {
  }

  /** The files `L.download_post` writes into the Instagram folder for this URL. */
  function InstagramFiles(url: string, remote: Remote): seq<string> {
    if remote.session.LoginFails? || SecondToLast(url, '/').None? || remote.lookup.LookupRaises? || remote.lookup.fetch.Raised? then []
    else remote.lookup.fetch.files
  }

  /** `download_facebook_post`: always the same placeholder. */
  function FacebookPost(): (r: Media)
    ensures r.imagePath.None? && r.videoPath.None? && r.caption == Some("Facebook scraping not implemented")
  {
    Media(None, None, Some("Facebook scraping not implemented"))
  }

  /** The body of the `iterrows` loop for one URL: Instagram is tested first, then Facebook. */
  function Dispatch(url: string, remote: Remote): Option<Media> {
    if Contains(url, "instagram.com") then InstagramPost(url, remote, InstagramFolder)
    else if Contains(url, "facebook.com") then Some(FacebookPost())
    else Some(NoMedia)
  }

  /** Instagram is tested first, so a URL naming both sites is an Instagram post; the rest get three Nones. */
  lemma DispatchOrder(url: string, remote: Remote)
    ensures Contains(url, "instagram.com") ==> Dispatch(url, remote) == InstagramPost(url, remote, InstagramFolder)
    ensures !Contains(url, "instagram.com") && Contains(url, "facebook.com") ==> Dispatch(url, remote) == Some(FacebookPost())
    ensures !Contains(url, "instagram.com") && !Contains(url, "facebook.com") ==> Dispatch(url, remote) == Some(NoMedia)
    ensures Dispatch(url, remote).None? <==> Contains(url, "instagram.com") && remote.session.LoginFails?
  {
  }

  function DispatchFiles(url: string, remote: Remote): seq<string> {
    if Contains(url, "instagram.com") then InstagramFiles(url, remote) else []
  }

  /** One row of the output sheet. */
  datatype OutRow = OutRow(url: string, imagePath: Option<string>, videoPath: Option<string>, caption: Option<string>)

  function RowOf(url: string, media: Media): OutRow {
    OutRow(url, media.imagePath, media.videoPath, media.caption)
  }

  /** The tree after one URL's download: the files written into the Instagram folder, if any. */
  function WrittenBy(tree: Tree, url: string, remote: Remote): Tree {
    var files := DispatchFiles(url, remote);
    if files == [] then tree else Store(tree, InstagramDir(), files)
  }

  /** The output rows (None once a handler raised) and the directory tree. */
  datatype Sheet = Sheet(output: Option<seq<OutRow>>, tree: Tree)

  /** The output of the `iterrows` loop over the given URLs: None once a handler raised. */
  function Output(urls: seq<string>, remotes: seq<Remote>): Option<seq<OutRow>>
    requires |remotes| == |urls|
  {
    if urls == [] then Some([])
    else
      var n := |urls| - 1;
      var prev := Output(urls[..n], remotes[..n]);
      if prev.None? then None
      else match Dispatch(urls[n], remotes[n])
        case None => None
        case Some(media) => Some(prev.value + [RowOf(urls[n], media)])
  }

  /** The directory tree after the loop: the URLs up to the first raising handler write their files. */
  function TreeAfter(urls: seq<string>, remotes: seq<Remote>, tree: Tree): Tree
    requires |remotes| == |urls|
  {
    if urls == [] then tree
    else
      var n := |urls| - 1;
      var prev := TreeAfter(urls[..n], remotes[..n], tree);
      if Output(urls[..n], remotes[..n]).None? then prev else WrittenBy(prev, urls[n], remotes[n])
  }

  /** The `iterrows` loop over the given URLs, from tree `tree`. */
  function Processed(urls: seq<string>, remotes: seq<Remote>, tree: Tree): Sheet
    requires |remotes| == |urls|
  {
    Sheet(Output(urls, remotes), TreeAfter(urls, remotes, tree))
  }

  /** Once a handler has raised, the later URLs are never looked at. */
  lemma {:induction false} CrashEndsRun(urls: seq<string>, remotes: seq<Remote>, tree: Tree, i: nat)
    requires |remotes| == |urls| && i <= |urls|
    requires Output(urls[..i], remotes[..i]).None?
    ensures Processed(urls, remotes, tree) == Processed(urls[..i], remotes[..i], tree)
    decreases |urls|
  {
    if i < |urls| {
      var n := |urls| - 1;
      assert urls[..n][..i] == urls[..i] && remotes[..n][..i] == remotes[..i];
      CrashEndsRun(urls[..n], remotes[..n], tree, i);
    } else {
      assert urls[..i] == urls && remotes[..i] == remotes;
    }
  }

  /** The body of the `iterrows` loop; None when the Instagram handler raises. */
  method ProcessUrl(url: string, remote: Remote, tree: Tree) returns (media: Option<Media>, tree': Tree)
    ensures media == Dispatch(url, remote)
    ensures tree' == WrittenBy(tree, url, remote)
    ensures media.None? ==> tree' == tree
  {
    tree' := tree;
    if Contains(url, "instagram.com") {
      media := InstagramPost(url, remote, InstagramFolder);
      var files := InstagramFiles(url, remote);
      if files != [] {
        tree' := Store(tree', InstagramDir(), files);
      }
    } else if Contains(url, "facebook.com") {
      media := Some(FacebookPost());
    } else {
      media := Some(NoMedia);
    }
  }

  method ProcessRows(urls: seq<string>, remotes: seq<Remote>, tree: Tree)
    returns (output: Option<seq<OutRow>>, tree': Tree)
    requires |remotes| == |urls|
    ensures Sheet(output, tree') == Processed(urls, remotes, tree)
  {
    tree' := tree;
    var outputData: seq<OutRow> := [];
    for i := 0 to |urls|
      invariant Sheet(Some(outputData), tree') == Processed(urls[..i], remotes[..i], tree)
    {
      assert urls[..i + 1][..i] == urls[..i] && remotes[..i + 1][..i] == remotes[..i];
      var media;
      media, tree' := ProcessUrl(urls[i], remotes[i], tree');
      if media.None? {
        CrashEndsRun(urls, remotes, tree, i + 1);
        return None, tree';
      }
      outputData := outputData + [RowOf(urls[i], media.value)];
    }
    assert urls[..|urls|] == urls && remotes[..|remotes|] == remotes;
    output := Some(outputData);
  }

  /** `process_urls`: set up the folders, then run the loop over the sheet's URLs. */
  method ProcessUrls(urls: seq<string>, remotes: seq<Remote>, tree: Tree)
    returns (output: Option<seq<OutRow>>, tree': Tree)
    requires |remotes| == |urls|
    ensures Sheet(output, tree') == Processed(urls, remotes, Setup(tree))
  {
    var instagramFolder, facebookFolder;
    instagramFolder, facebookFolder, tree' := SetupDirectories(tree);
    output, tree' := ProcessRows(urls, remotes, tree');
  }

  /** The run ends without a sheet exactly when some Instagram URL meets a failing login fallback. */
  lemma {:induction false} NoSheetExactly(urls: seq<string>, remotes: seq<Remote>)
    requires |remotes| == |urls|
    ensures Output(urls, remotes).None? <==>
              exists i :: 0 <= i < |urls| && Contains(urls[i], "instagram.com") && remotes[i].session.LoginFails?
  {
    if urls != [] {
      var n := |urls| - 1;
      NoSheetExactly(urls[..n], remotes[..n]);
      assert forall i :: 0 <= i < n ==> urls[..n][i] == urls[i] && remotes[..n][i] == remotes[i];
      var fails := Contains(urls[n], "instagram.com") && remotes[n].session.LoginFails?;
      DispatchOrder(urls[n], remotes[n]);
      assert Output(urls, remotes).None? <==> Output(urls[..n], remotes[..n]).None? || fails;
    }
  }

  /** A sheet has exactly one row per input URL, in input order, holding what that URL's handler returned. */
  lemma {:induction false} OneRowPerUrl(urls: seq<string>, remotes: seq<Remote>)
    requires |remotes| == |urls|
    ensures var out := Output(urls, remotes);
            out.Some? ==>
              && |out.value| == |urls|
              && forall i :: 0 <= i < |urls| ==> Dispatch(urls[i], remotes[i]).Some? && out.value[i] == RowOf(urls[i], Dispatch(urls[i], remotes[i]).value)
  {
    if urls != [] {
      var n := |urls| - 1;
      OneRowPerUrl(urls[..n], remotes[..n]);
      assert forall i :: 0 <= i < n ==> urls[..n][i] == urls[i] && remotes[..n][i] == remotes[i];
      var prev := Output(urls[..n], remotes[..n]);
      var last := Dispatch(urls[n], remotes[n]);
      if prev.Some? && last.Some? {
        assert Output(urls, remotes) == Some(prev.value + [RowOf(urls[n], last.value)]);
      }
    }
  }

  /**
   * For a post URL `<prefix>/<code>/` the handler's path is `<folder>/<code>.mp4`
   * for a video and `<folder>/<code>.jpg` for an image.
   */
  lemma PostUrlPaths(prefix: string, code: string, remote: Remote)
    requires '/' !in code
    requires !remote.session.LoginFails? && remote.lookup.PostFound? && remote.lookup.fetch.Saved?
    ensures var r := InstagramPost(prefix + "/" + code + "/", remote, InstagramFolder);
            && r.Some?
            && (remote.lookup.isVideo ==> r.value == Media(None, Some(InstagramFolder + "/" + code + ".mp4"), Some(Caption(remote.lookup.caption))))
            && (!remote.lookup.isVideo ==> r.value == Media(Some(InstagramFolder + "/" + code + ".jpg"), None, Some(Caption(remote.lookup.caption))))
  {
    assert prefix + "/" + code + "/" == prefix + ['/'] + code + ['/'];
    PieceBeforeTrailingSlash(prefix, code, '/');
    JoinPlain(InstagramFolder, code + ".mp4");
    JoinPlain(InstagramFolder, code + ".jpg");
    assert InstagramFolder + "/" + (code + ".mp4") == InstagramFolder + "/" + code + ".mp4";
    assert InstagramFolder + "/" + (code + ".jpg") == InstagramFolder + "/" + code + ".jpg";
  }
}
