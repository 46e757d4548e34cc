# Instagram media scrapers: a verified model

This project models the decision logic of four small scraping scripts:

- `test-video.py` downloads only the video posts of each listed Instagram account with instaloader.
- `loadernog.py` downloads the latest 50 posts of each account. It sorts images and videos into their own directories and waits a random time between accounts with a visible countdown.
- `playwr.py` opens each account's profile page in a browser and downloads the video behind each post link.
- `selenium.py` goes through a sheet of post URLs and downloads each Instagram post. Facebook URLs get a placeholder row and any other URL an empty row.

The model records what each script does to its state:

- The directory tree under `downloads/` or `scraped_content/`.
- The CSV download log, with its header rule.
- The log rows gathered per account.
- What is shown to the operator.

Everything the scripts get from the outside world is an input value:

- what instaloader, the browser, the HTTP server and the operator's keyboard answer;
- the shuffled order of the accounts;
- the random sleep drawn for each account;
- the timestamp.

Modules:

- `Text`: the Python string built-ins the scripts use. These are `startswith`, `in`, `split`, `strip`, `lower`, `int()` and the `02d` format.
- `Files`: the directory tree, plus `os.makedirs`, `Path.mkdir(parents=True, exist_ok=True)`, `os.listdir` and `os.path.join`.
- `RunLog`: the download log and its two header rules. The first is "header when `tell() == 0`", used by `save_logs_to_csv`. The second is "header when the file does not exist", used by `log_to_csv`.
- `Operator`: reading usernames, the yes/no prompt, the interval prompt, the countdown, and the guards of the main block.
- `Harvest`: the records of one downloaded post, and the main loop shared by the three account-based scripts.
- `InstaVideos` models `test-video.py`, `InstaPosts` models `loadernog.py`, and `BrowserVideos` models `playwr.py`.
- `UrlDispatch` models `selenium.py`.

Each loop of the scripts is a method with a `while`/`for` loop. The method is proved equal to a specification function, and lemmas state what that function means.

The scripts keep every occurrence of a username: nothing removes duplicates (`Operator.DuplicatesKept`).

## Model

| member | source | states |
|---|---|---|
| Text.SplitJoin | playwr.py:139 | Joining the pieces of `str.split` with the separator restores the string: no character is lost. |
| Text.SplitPieces | playwr.py:139 | No piece returned by `str.split` contains the separator. |
| Text.SplitConcat | playwr.py:139 | Splitting `a + sep + b` gives the pieces of `a` followed by the pieces of `b`. |
| Text.SplitWithoutSeparator | selenium.py:50 | A string without the separator splits into itself alone. |
| Text.PieceBeforeTrailingSlash | selenium.py:50 | `split('/')[-2]` of a URL ending in `/<code>/` is exactly `code` when `code` has no slash. |
| Text.ContainsInfix | selenium.py:90 | A string containing `t` between two parts satisfies the `in` test for `t`. |
| Text.StripLeft | test-video.py:130 | `int()` skips exactly the leading whitespace. The result is a suffix of the input that starts with a non-blank, and every character dropped is whitespace. |
| Text.StripRight | test-video.py:130 | `int()` skips exactly the trailing whitespace. The result is a prefix of the input that ends with a non-blank, and every character dropped is whitespace. |
| Text.ShowNatValue | test-video.py:143 | The decimal numeral of `n` reads back as `n`. |
| Text.Pad2Value | test-video.py:143 | The zero-padded `02d` numeral has at least two digits and reads back as `n`. |
| Text.DropUnderscoresOfDigits | test-video.py:130 | Removing digit-group underscores leaves a plain digit string unchanged. |
| Text.ParseDigits | test-video.py:130 | A non-empty digit string is a valid `int()` digit group with its own value. |
| Text.StripUnpadded | test-video.py:130 | Stripping a string without surrounding blanks leaves it unchanged. |
| Text.ParseUnsigned | test-video.py:130 | `int()` of a digit-group string is the value of its digits with underscores removed. When it has more than 4300 digits, `int()` raises. |
| Text.ParseNegative | test-video.py:130 | `int()` of `-` followed by a digit-group string is the negated value. When the digits number more than 4300, `int()` raises. |
| Text.ParseShowInt | test-video.py:130 | `int(str(i)) == i` for every integer of at most 4300 digits, negative ones included. Longer numerals are refused. |
| Text.LiteralRefused | test-video.py:130 | After the whitespace is skipped, `int()` raises on a literal that does not start with a sign or a digit, and on one that does not end with a digit. |
| Text.SeparatorRefused | test-video.py:130 | A number preceded by U+001C or followed by U+001F makes `int()` raise. Both characters count as `str.isspace`, yet `int()` does not skip them. |
| Files.JoinPlain | selenium.py:14 | `os.path.join(a, b)` is `a/b` when `a` has no trailing slash and `b` is relative. |
| Files.AddEntriesLists | test-video.py:69-72 | After a download the listing keeps its old names in order, contains every new name, and contains nothing else. |
| Files.StoreKeepsListings | test-video.py:69-72 | Storing files never removes a directory or an entry, and the stored names are listed in the target directory. |
| Files.MakeDirsCreates | test-video.py:24-30 | `os.makedirs(p)` creates `p` and keeps every existing directory with its entries. Every directory it adds is an ancestor of `p` or `p` itself. |
| Files.MakeDirsExisting | test-video.py:26-30 | `create_directory` on an existing directory leaves the tree unchanged. |
| Files.MakeDirsIdempotent | selenium.py:17-18 | `mkdir(parents=True, exist_ok=True)` a second time changes nothing. |
| RunLog.SaveLogsToCsv | test-video.py:32-45 | The file after `save_logs_to_csv` writes the header only when the file was empty, then appends the rows in order. |
| RunLog.LogToCsv | loadernog.py:29-42 | The file after `log_to_csv` writes the header only when the file did not exist, then appends the rows in order. |
| RunLog.SaveToNonEmpty | test-video.py:36-42 | On a log that already has rows, both writers append exactly the given rows and never a second header. |
| RunLog.SaveAllNonEmpty | test-video.py:36-42 | Over a whole run on a non-empty log, the old rows stay and every batch's rows follow in order. |
| RunLog.SaveAllFromEmpty | test-video.py:36-42 | A run of at least one batch on an empty or missing log leaves exactly one header followed by all rows in order. |
| RunLog.LogAllExisting | loadernog.py:32-39 | On an existing log, `log_to_csv` over a run only appends all rows in order, even when the file is empty. |
| RunLog.LogAllFromAbsent | loadernog.py:32-39 | A run of at least one batch without a log file creates it with one header followed by all rows. |
| RunLog.HeaderRulesDiffer | loadernog.py:32-37 | The two header rules agree on every file except an existing empty one. There, `save_logs_to_csv` writes a header and `log_to_csv` does not. |
| RunLog.AppendAllStep | test-video.py:181-182 | Writing one more batch extends the run's log by that batch under the same header rule. |
| Harvest.LogPostFiles | test-video.py:72-76 | The rows logged for a post are produced by a loop over the directory listing and equal the record specification. |
| Harvest.PostRecordsExactly | test-video.py:72-76 | A row is logged for a post exactly when a listed file starts with its shortcode. The row holds the user, the shortcode, the joined path and the timestamp. There are never more rows than files. |
| Harvest.BatchesStep | test-video.py:179-184 | One more account adds its name to the visit order and its rows to the batches iff its logs are truthy. |
| Harvest.AppendStep | test-video.py:181-184 | Writing truthy logs and skipping empty ones extends the run's log by the next batch. |
| Harvest.ScrapeNames | test-video.py:176-179 | The accounts are visited exactly in the given order, each once. |
| Harvest.ScrapeLogs | test-video.py:176-184 | The log after the run is the starting log with each account's truthy rows appended in visit order. Both `None` and `[]` leave the log untouched. |
| Harvest.ScrapeStep | loadernog.py:184-199 | One more account in the order is one more step of the loop. |
| Harvest.EachUsernameOnce | loadernog.py:180-186 | After `random.shuffle`, every loaded username is scraped exactly as often as it occurs in the list. |
| InstaVideos.DownloadUserVideos | test-video.py:47-90 | The loop over the profile's posts computes the specified logs and tree of `download_user_videos`. |
| InstaVideos.OnlyVideosMatter | test-video.py:65-79 | Non-video posts do not affect the result: scanning only the `GraphVideo` posts gives the same logs and tree. |
| InstaVideos.OnlyVideosMatterForAccount | test-video.py:65-79 | The same holds for the whole account. |
| InstaVideos.ScanVideosFails | test-video.py:65-88 | The post scan returns `None` iff the download of some video post raises. |
| InstaVideos.VideosHarvestFails | test-video.py:82-88 | The account yields `None` iff the profile lookup raises, the enumeration raises, or a video download raises. Rate limits count among these. |
| InstaVideos.ScanVideosRecords | test-video.py:72-75 | The scan keeps earlier rows and listings. Every new row names a video post and a file in the user directory starting with its shortcode. |
| InstaVideos.VideosHarvestRecords | test-video.py:72-75 | Every logged row of an account comes from one of its video posts and a file present in `downloads/<user>`. |
| InstaVideos.ScrapeAll | test-video.py:176-184 | The main loop computes the shared loop specification with `save_logs_to_csv`'s header rule. |
| InstaPosts.Routing | loadernog.py:70-75 | Images go to `images`, videos to `videos`, and every other typename to the user directory. The three never coincide. |
| InstaPosts.FirstPosts | loadernog.py:65-67 | The posts visited are a prefix of the enumeration of at most 50 posts, and all of them when there are at most 50. |
| InstaPosts.DownloadPost | loadernog.py:69-85 | One post is downloaded into its routed directory and its files are logged as specified. |
| InstaPosts.DownloadUserPosts | loadernog.py:44-98 | The loop over the enumeration, with its break at index 50, computes the specified logs and tree of `download_user_posts`. |
| InstaPosts.HarvestedFromScan | loadernog.py:52-67 | A found profile's result is the scan of its first 50 posts after both media directories are created. The exception is an enumeration of at most 50 posts that then raises: it turns the logs into `None`. |
| InstaPosts.CapFirstFifty | loadernog.py:65-67 | An account with more than 50 posts behaves as if it had only its first 50, and an enumeration error after them goes unseen. |
| InstaPosts.ScanPostsFails | loadernog.py:65-96 | The scan returns `None` iff some post's download raises. |
| InstaPosts.PostsHarvestFails | loadernog.py:90-96 | The account yields `None` iff either of these holds: the profile lookup raises or the enumeration of at most 50 posts raises; or one of the first 50 downloads raises. |
| InstaPosts.ScanPostsRecords | loadernog.py:81-85 | The scan keeps earlier rows. Every new row names a visited post and a file in its routed directory starting with its shortcode. |
| InstaPosts.PostsHarvestRecords | loadernog.py:81-85 | Every logged row of an account comes from one of its first 50 posts and a file present in that post's routed directory. |
| InstaPosts.ScanPostsKeepsDirs | loadernog.py:78 | Downloading posts never removes a directory. |
| InstaPosts.PostDirsExist | loadernog.py:56-57 | After the account, `images` and `videos` exist under `downloads/<user>` whatever the outcome. |
| InstaPosts.ScrapeAll | loadernog.py:184-199 | The main loop computes the shared loop specification with `log_to_csv`'s header rule. The operator sees the countdown frames of every drawn sleep, one account after another. |
| InstaPosts.AllFramesStep | loadernog.py:194-199 | One more account adds the countdown of its own sleep to the frames shown. |
| InstaPosts.CountdownAfterEach | loadernog.py:194-199 | The frames shown over the run number the total of the drawn sleeps, and none of them reads `00:00`. |
| BrowserVideos.ExtractVideoUrl | playwr.py:57-70 | A video URL is found iff the `og:video` meta tag exists and has non-empty content. It is that content. |
| BrowserVideos.Downloaded | playwr.py:38-55 | A path is returned iff the response is 200 and the body streams without error, and the path is `save_dir/filename`. A 200 response creates the file with the streamed chunks. Any other outcome leaves the tree untouched. |
| BrowserVideos.DownloadVideo | playwr.py:38-55 | The chunk-writing loop computes the specified download. |
| BrowserVideos.DownloadUserVideos | playwr.py:93-153 | The loop over the post links computes the specified logs and tree of `download_user_videos`. |
| BrowserVideos.PostUrlShortcode | playwr.py:139-140 | For a post URL `https://www.instagram.com/p/<code>/`, the shortcode is `code` and the file is `code.mp4`. |
| BrowserVideos.ScanLinksRecords | playwr.py:131-143 | Listings never shrink, and earlier rows are kept with at most one new row per link. Every new row needs all of the following: a link with a video URL, a 200 response, a completed download, and a `<shortcode>.mp4` file in the user directory. |
| BrowserVideos.RecordsAtMostLinks | playwr.py:131-151 | An account never logs more rows than post links. An account whose browser fails logs none. |
| BrowserVideos.LoginSkipped | playwr.py:115-117 | A profile redirected to a login page yields `[]` and only the user directory is created. |
| BrowserVideos.ScanLinksFails | playwr.py:131-151 | The link loop escapes to the handler iff some link raises. A link raises when `page.goto` fails, or when a video URL is found but the href has no `[-2]` piece. |
| BrowserVideos.BrowserHarvestFails | playwr.py:102-153 | Each of these gives `[]` and discards the rows gathered so far: a failing browser, a login page, a raising link, or a failing close. Otherwise the account returns the rows of the link loop. |
| BrowserVideos.BrowserHarvestRecords | playwr.py:131-153 | Every row an account logs comes from a post link whose video was fully downloaded into `downloads/<user>`. |
| BrowserVideos.ScrapeAll | playwr.py:170-178 | The main loop computes the shared loop specification, unshuffled, with `save_logs_to_csv`'s header rule. |
| Operator.ReadUsernamesFromCsv | test-video.py:92-111 | A missing file gives `[]`. Otherwise the first field of every non-empty row read is kept, in file order. A read error keeps the rows gathered so far. |
| Operator.FirstFieldsConcat | test-video.py:104-106 | The usernames of two stretches of the file are those of each, one after the other. |
| Operator.FirstFieldsOccurrences | test-video.py:104-106 | A name occurs among the usernames exactly as often as it heads a row, so no name is invented or dropped. There are never more usernames than rows. |
| Operator.DuplicatesKept | test-video.py:104-106 | A repeated username is kept twice and empty rows are skipped. |
| Operator.ConfirmCaseInsensitive | test-video.py:119-122 | An answer confirms iff it is `yes` and declines iff it is `no`, in any letter case. |
| Operator.FirstAcceptedMeans | test-video.py:115-123 | The prompt's answer is the first valid line, and every line before it was rejected. Input ending means no line was valid. |
| Operator.PromptUnique | test-video.py:115-123 | Any outcome with those properties is the prompt's outcome, so the answer is unique. |
| Operator.FirstAcceptedFrom | test-video.py:115-123 | Prompting from line `i` answers with line `i` when it is valid. Otherwise it answers as the prompt from line `i + 1`, with one more line used. |
| Operator.GetUserConfirmation | test-video.py:113-123 | The `while True` re-prompting loop yields the first valid confirmation. |
| Operator.ParseRange | test-video.py:128-137 | An interval is accepted only for exactly two comma-separated numbers with the first one smaller. |
| Operator.NoCommaInNumeral | test-video.py:130 | The numeral of an integer has no comma. |
| Operator.RangeOfNumerals | test-video.py:130-133 | For numerals `lo,hi` the interval is accepted iff `lo < hi` and both numerals are within `int()`'s 4300-digit limit. It is then `(lo*60, hi*60)` seconds. |
| Operator.SeparatorPaddedRefused | test-video.py:130-137 | The line made of U+001C then `1,2` is refused, so the operator is asked again. |
| Operator.GetScrapingTimeRange | test-video.py:125-137 | The re-prompting loop yields the first line that parses to a valid interval. |
| Operator.NegativeMinimumAccepted | test-video.py:130-141 | As written, `-1,1` is accepted as `(-60, 60)`, and a countdown from a negative number never stops. |
| Operator.ParseDelayRange | test-video.py:130-133 | The corrected interval parse accepts exactly the intervals with a non-negative minimum and agrees with the original on them. |
| Operator.Startup | test-video.py:153-164 | No usernames stops the run, and only an empty list does. It is cancelled iff there are usernames and the first valid answer is "no". Running out of input before an answer stops it too. Otherwise, after "yes", the run proceeds with the first valid interval read from the lines after the answer. Proceeding always means usernames, "yes" and `min < max`. |
| Operator.ClockZero | test-video.py:142-143 | Zero seconds is shown as `00:00`. |
| Operator.ColonSplit | test-video.py:143 | Two frames written `p:q` and `r:s` with colon-free parts agree only part by part. |
| Operator.NoColonInDigits | test-video.py:143 | No digit string contains a colon. |
| Operator.ClockInjective | test-video.py:142-143 | Different remaining times are never shown as the same frame. |
| Operator.Countdown | test-video.py:139-147 | The `while seconds` loop shows one frame per remaining second, from `n` down to 1, and never shows `00:00`. |
| Operator.ClockNotZero | test-video.py:141-146 | Any positive remaining time is shown as a frame other than `00:00`. |
| Operator.FramesNeverZero | test-video.py:141-146 | No frame of a countdown reads `00:00`. |
| UrlDispatch.Setup | selenium.py:11-20 | Both the Instagram and the Facebook directories exist afterwards, and every earlier directory is kept. |
| UrlDispatch.SetupDirectories | selenium.py:11-20 | `setup_directories` returns the two folder paths and leaves the specified tree. |
| UrlDispatch.FolderNames | selenium.py:13-15 | The returned folders are `scraped_content/Instagram` and `scraped_content/Facebook`. |
| UrlDispatch.SetupIdempotent | selenium.py:17-18 | Running the setup again changes nothing. |
| UrlDispatch.Caption | selenium.py:63 | A caption is never empty. It is the post's own caption when that is non-empty, and otherwise `No caption`. |
| UrlDispatch.InstagramPostShape | selenium.py:35-70 | The call crashes iff the session cannot be loaded and the login raises. Otherwise a non-empty triple needs all of the following: a shortcode, a found post and a completed download. It then has exactly one media path (`.mp4` for a video, `.jpg` otherwise) and a caption. |
| UrlDispatch.FacebookPost | selenium.py:73-77 | A Facebook URL gives no paths and the placeholder caption. |
| UrlDispatch.DispatchOrder | selenium.py:88-95 | An Instagram match wins over a Facebook match, and any other URL gives an empty row. Processing a URL crashes iff it is an Instagram URL whose login fails. |
| UrlDispatch.ProcessUrl | selenium.py:86-97 | One URL is dispatched as specified. A crash writes nothing. |
| UrlDispatch.ProcessRows | selenium.py:85-99 | The loop over the sheet computes the specified output and tree. |
| UrlDispatch.ProcessUrls | selenium.py:80-100 | `process_urls` sets up the directories and then processes every row. |
| UrlDispatch.CrashEndsRun | selenium.py:85-99 | Once a URL crashes, later rows change nothing: no sheet is written and no further file appears. |
| UrlDispatch.NoSheetExactly | selenium.py:44-99 | No output sheet is written iff some Instagram URL meets a failing login. |
| UrlDispatch.OneRowPerUrl | selenium.py:85-97 | When the sheet is written it has one row per input URL, in order. Each row holds that URL's dispatched result. |
| UrlDispatch.PostUrlPaths | selenium.py:50-61 | For a post URL ending in `/<code>/`, the media path is `scraped_content/Instagram/<code>.mp4` or `.jpg`, with a caption. |

## Left out

- The libraries instaloader, Playwright, requests and pandas are not modelled. What they return is an input value: `Profile`, `Post`, `Browser`, `PostPage`, `Http` and `Remote`.
- Which of their exceptions occurs matters only through the script's own handler. The sleep of `time.sleep(600)` after a rate limit is not modelled, and a rate limit behaves like any other failure.
- Console output, `logging`, `print`, the SIGINT handler and `exit()` are not modelled. They change no state the model tracks.
- Time, randomness and keyboard input are inputs:
  - One timestamp stands for all the `time.strftime` calls of a run, so rows of different seconds are not distinguished.
  - The shuffled order is an input related to the loaded list by `Harvest.EachUsernameOnce`.
  - Each `random.randint` draw is an input within `[min, max]`.
  - The operator's answers are a sequence of lines.
- The waits between accounts are not timed. `time.sleep` and the page waits and scrolling of `playwr.py` only take time.
- `InstaPosts.ScrapeAll`: its `0 <= minSleep` requirement is what the corrected `Operator.ParseDelayRange` guarantees. With the parse as written, a negative draw hangs the countdown (see Findings).
- `Operator.Countdown`: its `seconds >= 0` requirement excludes the non-terminating loop of a negative argument. `Operator.NegativeMinimumAccepted` states that case.
- `test-video.py` as written draws a sleep per account but never calls `countdown`. Its loop is modelled without waits.
- The order of `os.listdir` is modelled as the order in which names were stored.
- File contents are not modelled, except the bytes `playwr.py` streams. A download that raises part-way may in reality leave files behind. The model keeps the files stored by the posts before it and drops the rows.
- `os.makedirs` failures other than an existing directory (permissions, races) are not modelled.
- The `total_files` counters are only logged and are not modelled. `Harvest.PostRecordsExactly` bounds the rows per post by the files listed.
- Reading the Excel input and writing the output sheet are not modelled. The input is the sequence of URLs and the output is the sequence of rows. A missing or non-text URL cell is not modelled.
- `UrlDispatch.ProcessUrl` uses the folder constant rather than the value `setup_directories` returns. `UrlDispatch.FolderNames` proves the two equal.
- Saving the session cookie after a login and the Facebook folder argument are not modelled, because nothing reads them back.
- `Text.Lower` maps only ASCII letters, and Python's full Unicode case mapping is not modelled. No non-ASCII character lowercases to a letter of `yes` or `no`, so the confirmation prompt accepts the same answers.
- Operator.ParseRange: `int()` also accepts non-ASCII decimal digits (for example Arabic-Indic digits); the model accepts only `0`-`9` (`Text.IsDigit`), so such lines are refused by the model but accepted by the script.
- The 4300-digit limit of `int()` and `str()` is Python's default `sys.int_max_str_digits`. A changed setting is not modelled.
- The CSV writers swallow every error while writing (test-video.py:44-45, loadernog.py:41-42, playwr.py:35-36). The model assumes every append succeeds.
- Usernames are assumed non-empty and free of `/`. The model puts each account in its own directory `["downloads", username]`. With the script's `f"downloads/{username}"`, an empty name (from a CSV row such as `,x`) means `downloads/` itself, and a name with `/` means a nested path. In such cases the listing, and so the recorded files, can differ from the model's.

## Findings

| source | as written | input that shows it | evidently intended | confidence | as-written member | corrected member |
|---|---|---|---|---|---|---|
| test-video.py:130-133 (same code at loadernog.py:138-141) | `get_scraping_time_range` accepts any two integers with `min < max`, negative ones included | the operator types `-1,1`: the interval is `(-60, 60)`; `randint` can draw a negative sleep, and `countdown` then loops forever because `seconds` never reaches 0 | a non-negative minimum, so every drawn sleep ends | not executed | Operator.NegativeMinimumAccepted | Operator.ParseDelayRange |
