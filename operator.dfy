/**
 * The operator-facing steps shared by the instaloader scripts (test-video.py and
 * loadernog.py hold identical copies): loading usernames, the yes/no and
 * interval prompts, and the countdown between accounts. Each prompt reads the
 * operator's answers from `lines`, one `input()` per element; running out of
 * lines stands for end of input, where `input()` raises EOFError.
 */
module Operator {
  import opened Wrappers
  import opened Text

  // ---------------------------------------------------------------- usernames

  /** The usernames file: missing, or the rows the CSV reader yields before the end of the file or a read error. */
  datatype CsvFile = Missing | Readable(rows: seq<seq<string>>)

  /** The first field of every non-empty row, in file order. */
  function FirstFields(rows: seq<seq<string>>): seq<string> {
    if rows == [] then []
    else FirstFields(rows[..|rows| - 1]) + (if rows[|rows| - 1] != [] then [rows[|rows| - 1][0]] else [])
  }

  /**
   * `read_usernames_from_csv`: [] for a missing file; otherwise the first field of
   * each non-empty row read, in order. A read error ends the loop and
   * returns what was gathered, so it is the same as the file ending there.
   */
  method ReadUsernamesFromCsv(file: CsvFile) returns (usernames: seq<string>)
    ensures file.Missing? ==> usernames == []
    ensures file.Readable? ==> usernames == FirstFields(file.rows)
  {
    usernames := [];
    if file.Missing? {
      return;
    }
    var rows := file.rows;
    for i := 0 to |rows|
      invariant usernames == FirstFields(rows[..i])
    {
      assert rows[..i + 1][..i] == rows[..i];
      if rows[i] != [] {
        usernames := usernames + [rows[i][0]];
      }
    }
    assert rows[..|rows|] == rows;
  }

  /** Order is preserved: the usernames of two stretches of the file are those of each, one after the other. */
  lemma {:induction false} FirstFieldsConcat(a: seq<seq<string>>, b: seq<seq<string>>)
    ensures FirstFields(a + b) == FirstFields(a) + FirstFields(b)
  {
    if b != [] {
      assert (a + b)[..|a + b| - 1] == a + b[..|b| - 1];
      FirstFieldsConcat(a, b[..|b| - 1]);
    } else {
      assert a + b == a;
    }
  }

  /** How many non-empty rows start with `u`. */
  function Occurrences(rows: seq<seq<string>>, u: string): nat {
    if rows == [] then 0
    else
      var last := rows[|rows| - 1];
      Occurrences(rows[..|rows| - 1], u) + (if last != [] && last[0] == u then 1 else 0)
  }

  /** A name is loaded exactly as often as it heads a non-empty row: no deduplication. */
  lemma {:induction false} FirstFieldsOccurrences(rows: seq<seq<string>>, u: string)
    ensures multiset(FirstFields(rows))[u] == Occurrences(rows, u)
    ensures |FirstFields(rows)| <= |rows|
  {
    if rows != [] {
      var init, last := rows[..|rows| - 1], rows[|rows| - 1];
      FirstFieldsOccurrences(init, u);
      var tail := if last != [] then [last[0]] else [];
      assert FirstFields(rows) == FirstFields(init) + tail;
      assert multiset(FirstFields(rows)) == multiset(FirstFields(init)) + multiset(tail);
    }
  }

  /** Duplicate names in the file are all loaded. */
  lemma DuplicatesKept()
    ensures FirstFields([["alice"], ["alice"], [], ["bob", "x"]]) == ["alice", "alice", "bob"]
  {
    var rows: seq<seq<string>> := [["alice"], ["alice"], [], ["bob", "x"]];
    assert rows[..3] == [["alice"], ["alice"], []];
    assert rows[..3][..2] == [["alice"], ["alice"]];
    assert rows[..3][..2][..1] == [["alice"]];
    assert rows[..3][..2][..1][..0] == [];
    assert FirstFields([["alice"]]) == ["alice"];
    assert FirstFields([["alice"], ["alice"]]) == ["alice", "alice"];
    assert FirstFields([["alice"], ["alice"], []]) == ["alice", "alice"];
  }

  // ---------------------------------------------------------------- prompt loops

  /** The outcome of a `while True` prompt loop: the accepted value and how many lines it read, or end of input. */
  datatype Prompt<T> = Answered(value: T, used: nat) | InputEnded

  /** The first line `accept` gives a value for, re-prompting after every rejected line. */
  function FirstAccepted<T>(lines: seq<string>, accept: string -> Option<T>): (p: Prompt<T>) {
    if lines == [] then InputEnded
    else match accept(lines[0])
      case Some(v) => Answered(v, 1)
      case None =>
        match FirstAccepted(lines[1..], accept)
        case Answered(v, n) => Answered(v, n + 1)
        case InputEnded => InputEnded
  }

  /** `input(...).lower() in ['yes', 'no']`, giving `confirmation == 'yes'`. */
  function ConfirmAnswer(line: string): Option<bool> {
    var l := Lower(line);
    if l == "yes" then Some(true) else if l == "no" then Some(false) else None
  }

  /** The accepted answers are exactly "yes" and "no" in any mix of cases, nothing else (no trimming). */
  lemma ConfirmCaseInsensitive(line: string)
    ensures ConfirmAnswer(line) == Some(true) <==>
              |line| == 3 && line[0] in "yY" && line[1] in "eE" && line[2] in "sS"
    ensures ConfirmAnswer(line) == Some(false) <==> |line| == 2 && line[0] in "nN" && line[1] in "oO"
  {
    var l := Lower(line);
    if |line| == 3 {
      assert l == "yes" <==> l[0] == 'y' && l[1] == 'e' && l[2] == 's';
    }
    if |line| == 2 {
      assert l == "no" <==> l[0] == 'n' && l[1] == 'o';
    }
  }

  /**
   * The answer is the first accepted line: it is accepted, every line before it
   * was rejected, and the input ends unanswered exactly when every line is rejected.
   */
  lemma {:induction false} FirstAcceptedMeans<T>(lines: seq<string>, accept: string -> Option<T>)
    ensures var p := FirstAccepted(lines, accept);
            p.Answered? ==> 1 <= p.used <= |lines| && accept(lines[p.used - 1]) == Some(p.value)
                            && forall k :: 0 <= k < p.used - 1 ==> accept(lines[k]).None?
    ensures FirstAccepted(lines, accept).InputEnded? <==> forall k :: 0 <= k < |lines| ==> accept(lines[k]).None?
  {
    if lines != [] && accept(lines[0]).None? {
      var rest := lines[1..];
      FirstAcceptedMeans(rest, accept);
      assert forall k :: 1 <= k < |lines| ==> lines[k] == rest[k - 1];
    }
  }

  /** Conversely, a prompt outcome with the first-accepted property is the one `FirstAccepted` gives. */
  lemma PromptUnique<T>(lines: seq<string>, accept: string -> Option<T>, p: Prompt<T>)
    requires p.Answered? ==> 1 <= p.used <= |lines| && accept(lines[p.used - 1]) == Some(p.value)
    requires p.Answered? ==> forall k :: 0 <= k < p.used - 1 ==> accept(lines[k]).None?
    requires p.InputEnded? ==> forall k :: 0 <= k < |lines| ==> accept(lines[k]).None?
    ensures p == FirstAccepted(lines, accept)
  {
    FirstAcceptedMeans(lines, accept);
  }

  /** A prompt outcome seen from n lines earlier: the answer's line number shifts by n. */
  function Later<T>(p: Prompt<T>, n: nat): Prompt<T> {
    match p
    case Answered(v, used) => Answered(v, used + n)
    case InputEnded => InputEnded
  }

  /** Prompting from line i: the answer is line i if it is accepted, otherwise the answer from line i + 1. */
  lemma FirstAcceptedFrom<T>(lines: seq<string>, accept: string -> Option<T>, i: nat)
    requires i < |lines|
    ensures FirstAccepted(lines[i..], accept) ==
              match accept(lines[i])
              case Some(v) => Answered(v, 1)
              case None => Later(FirstAccepted(lines[i + 1..], accept), 1)
  {
    assert lines[i..][0] == lines[i] && lines[i..][1..] == lines[i + 1..];
  }

  /** `get_user_confirmation`: prompts until "yes" or "no" (any case) and answers whether it was "yes". */
  method GetUserConfirmation(lines: seq<string>) returns (answer: Prompt<bool>)
    ensures answer == FirstAccepted(lines, ConfirmAnswer)
  {
    assert lines[0..] == lines;
    var i := 0;
    while i < |lines|
      invariant 0 <= i <= |lines|
      invariant FirstAccepted(lines, ConfirmAnswer) == Later(FirstAccepted(lines[i..], ConfirmAnswer), i)
    {
      FirstAcceptedFrom(lines, ConfirmAnswer, i);
      var confirmation := Lower(lines[i]);
      if confirmation == "yes" || confirmation == "no" {
        answer := Answered(confirmation == "yes", i + 1);
        return;
      }
      i := i + 1;
    }
    assert lines[i..] == [];
    answer := InputEnded;
  }

  // ---------------------------------------------------------------- interval

  /**
   * One line of the interval prompt: `min_time, max_time = map(int, line.split(","))`
   * accepted when it gives exactly two integers with min_time < max_time; the
   * result is in seconds. Every other line is rejected (ValueError or the "smaller" message).
   */
  function ParseRange(line: string): (r: Option<(int, int)>)
    ensures r.Some? ==> |Split(line, ',')| == 2
    ensures r.Some? ==> r.value.0 < r.value.1
  {
    var parts := Split(line, ',');
    if |parts| != 2 then None
    else match (ParseInt(parts[0]), ParseInt(parts[1]))
      case (Some(lo), Some(hi)) => if lo < hi then Some((lo * 60, hi * 60)) else None
      case _ => None
  }

  lemma NoCommaInNumeral(i: int)
    ensures ',' !in ShowInt(i)
  {
    var d := ShowNat(if i < 0 then -i else i);
    assert forall k :: 0 <= k < |d| ==> d[k] != ',';
    if i < 0 {
      assert ShowInt(i) == "-" + d;
      assert forall k :: 0 <= k < |ShowInt(i)| ==> ShowInt(i)[k] != ',' by {
        forall k | 0 <= k < |ShowInt(i)| ensures ShowInt(i)[k] != ',' {
          if k > 0 { assert ShowInt(i)[k] == d[k - 1]; }
        }
      }
    }
  }

  /**
   * The line "lo,hi" written as decimal numerals is accepted exactly when lo < hi
   * and both numerals are within `int()`'s digit limit, giving both in seconds.
   */
  lemma RangeOfNumerals(lo: int, hi: int)
    ensures ParseRange(ShowInt(lo) + "," + ShowInt(hi))
         == if Showable(lo) && Showable(hi) && lo < hi then Some((lo * 60, hi * 60)) else None
  {
    var a, b := ShowInt(lo), ShowInt(hi);
    NoCommaInNumeral(lo);
    NoCommaInNumeral(hi);
    SplitConcat(a, b, ',');
    SplitWithoutSeparator(a, ',');
    SplitWithoutSeparator(b, ',');
    assert a + "," + b == a + [','] + b;
    assert Split(a + "," + b, ',') == [a, b];
    ParseShowInt(lo);
    ParseShowInt(hi);
  }

  /** `get_scraping_time_range`: prompts until a line is accepted by `ParseRange`. */
  method GetScrapingTimeRange(lines: seq<string>) returns (range: Prompt<(int, int)>)
    ensures range == FirstAccepted(lines, ParseRange)
  {
    assert lines[0..] == lines;
    var i := 0;
    while i < |lines|
      invariant 0 <= i <= |lines|
      invariant FirstAccepted(lines, ParseRange) == Later(FirstAccepted(lines[i..], ParseRange), i)
    {
      FirstAcceptedFrom(lines, ParseRange, i);
      var r := ParseRange(lines[i]);
      if r.Some? {
        range := Answered(r.value, i + 1);
        return;
      }
      i := i + 1;
    }
    assert lines[i..] == [];
    range := InputEnded;
  }

  /** The guard of `while seconds:` is false after k decrements of `seconds`. */
  predicate StopsAfter(seconds: int, k: nat) {
    seconds - k == 0
  }

  /** The interval parse as written lets a negative minimum through; a countdown from it never reaches 0. */
  lemma NegativeMinimumAccepted()
    ensures ParseRange("-1,1") == Some((-60, 60))
    ensures forall k: nat :: !StopsAfter(-60, k)
  {
    assert DigitChar(1) == '1';
    assert ShowInt(1) == "1";
    assert ShowInt(-1) == "-" + ShowInt(1);
    assert ShowInt(-1) + "," + ShowInt(1) == "-1,1";
    assert Showable(-1) && Showable(1);
    RangeOfNumerals(-1, 1);
  }

  /** A separator character around a number makes `int()` raise, so the line is asked again. */
  lemma SeparatorPaddedRefused()
    ensures ParseRange("\U{1C}1,2") == None
  {
    assert "\U{1C}1,2" == "\U{1C}1" + [','] + "2";
    SplitConcat("\U{1C}1", "2", ',');
    SplitWithoutSeparator("\U{1C}1", ',');
    SplitWithoutSeparator("2", ',');
    assert "\U{1C}1" == "\U{1C}" + "1";
    SeparatorRefused("1");
  }

  /** The interval parse as evidently intended: a negative minimum is rejected too. */
  function ParseDelayRange(line: string): (r: Option<(int, int)>)
    ensures r.Some? ==> 0 <= r.value.0 < r.value.1
    ensures r.Some? ==> ParseRange(line) == r
    ensures ParseRange(line).Some? && ParseRange(line).value.0 >= 0 ==> r == ParseRange(line)
  {
    match ParseRange(line)
    case Some((lo, hi)) => if lo >= 0 then Some((lo, hi)) else None
    case None => None
  }

  // ---------------------------------------------------------------- start of a run

  datatype Plan = NoUsernames | Cancelled | NoAnswer | Proceed(minSleep: int, maxSleep: int)

  /**
   * The guards of the scripts' main block: no usernames, then the confirmation
   * ("no" — the run processes no account), then the interval, read from the
   * lines after the confirmation.
   */
  function Startup(usernames: seq<string>, lines: seq<string>): (p: Plan)
    ensures p.Proceed? ==> usernames != [] && p.minSleep < p.maxSleep
    ensures p.Proceed? || p == Cancelled ==> FirstAccepted(lines, ConfirmAnswer).Answered?
    ensures p.Proceed? ==> FirstAccepted(lines, ConfirmAnswer).value
    ensures p == Cancelled <==>
              usernames != [] && FirstAccepted(lines, ConfirmAnswer).Answered? && !FirstAccepted(lines, ConfirmAnswer).value
    ensures p == NoUsernames <==> usernames == []
    ensures usernames != [] && FirstAccepted(lines, ConfirmAnswer).InputEnded? ==> p == NoAnswer
    ensures var c := FirstAccepted(lines, ConfirmAnswer);
            usernames != [] && c.Answered? && c.value && c.used <= |lines| ==>
              p == match FirstAccepted(lines[c.used..], ParseRange)
                   case Answered(range, _) => Proceed(range.0, range.1)
                   case InputEnded => NoAnswer
  {
    if usernames == [] then NoUsernames
    else
      FirstAcceptedMeans(lines, ConfirmAnswer);
      match FirstAccepted(lines, ConfirmAnswer)
      case InputEnded => NoAnswer
      case Answered(yes, n) =>
        if !yes then Cancelled
        else
          FirstAcceptedMeans(lines[n..], ParseRange);
          match FirstAccepted(lines[n..], ParseRange)
          case InputEnded => NoAnswer
          case Answered(range, _) => Proceed(range.0, range.1)
  }

  // ---------------------------------------------------------------- countdown

  /** One countdown frame: `f'{mins:02d}:{secs:02d}'` with `mins, secs = divmod(k, 60)`. */
  function Clock(k: nat): string {
    Pad2(k / 60) + ":" + Pad2(k % 60)
  }

  /** The frames shown counting down from n: Clock(n), Clock(n - 1), ..., Clock(1). */
  function Frames(n: nat): (r: seq<string>) {
    seq(n, i requires 0 <= i < n => Clock(n - i))
  }

  lemma ClockZero()
    ensures Clock(0) == "00:00"
  {
    assert Pad2(0) == "00";
  }

  /** A string joined around one ':' splits back uniquely when neither side has a ':'. */
  lemma ColonSplit(p: string, q: string, r: string, s: string)
    requires ':' !in p && ':' !in r
    requires p + ":" + q == r + ":" + s
    ensures p == r && q == s
  {
    var x := p + ":" + q;
    assert x[|p|] == ':' && x[|r|] == ':';
    assert forall i :: 0 <= i < |p| ==> x[i] != ':' by {
      assert forall i :: 0 <= i < |p| ==> x[i] == p[i];
    }
    assert forall i :: 0 <= i < |r| ==> x[i] != ':' by {
      assert forall i :: 0 <= i < |r| ==> (r + ":" + s)[i] == r[i];
    }
    assert |p| == |r|;
    assert p == x[..|p|] && r == x[..|r|];
    assert q == x[|p| + 1..] && s == x[|r| + 1..];
  }

  lemma NoColonInDigits(d: string)
    requires AllDigits(d)
    ensures ':' !in d
  {
    assert forall i :: 0 <= i < |d| ==> d[i] != ':';
  }

  /** Different second counts show different frames. */
  lemma ClockInjective(a: nat, b: nat)
    requires Clock(a) == Clock(b)
    ensures a == b
  {
    NoColonInDigits(Pad2(a / 60));
    NoColonInDigits(Pad2(b / 60));
    ColonSplit(Pad2(a / 60), Pad2(a % 60), Pad2(b / 60), Pad2(b % 60));
    Pad2Value(a / 60);
    Pad2Value(a % 60);
    Pad2Value(b / 60);
    Pad2Value(b % 60);
    assert a == (a / 60) * 60 + a % 60;
    assert b == (b / 60) * 60 + b % 60;
  }

  /**
   * `countdown(seconds)`: one frame per second from `seconds` down to 1. The loop
   * stops at 0 without showing it, so "00:00" never appears. `while seconds:`
   * runs forever on a negative count, hence the precondition.
   */
  method Countdown(seconds: int) returns (frames: seq<string>)
    requires seconds >= 0
    ensures frames == Frames(seconds)
    ensures forall i :: 0 <= i < |frames| ==> frames[i] != "00:00"
  {
    frames := [];
    var s := seconds;
    while s != 0
      invariant 0 <= s <= seconds
      invariant frames == Frames(seconds)[..seconds - s]
    {
      frames := frames + [Clock(s)];
      s := s - 1;
    }
    assert frames == Frames(seconds);
    FramesNeverZero(seconds);
  }

  /** Only a count of zero shows "00:00". */
  lemma ClockNotZero(k: nat)
    requires k > 0
    ensures Clock(k) != "00:00"
  {
    ClockZero();
    if Clock(k) == Clock(0) {
      ClockInjective(k, 0);
    }
  }

  /** No countdown shows "00:00": the last frame is Clock(1). */
  lemma FramesNeverZero(n: nat)
    ensures forall i :: 0 <= i < |Frames(n)| ==> Frames(n)[i] != "00:00"
  {
    forall i | 0 <= i < |Frames(n)| ensures Frames(n)[i] != "00:00" {
      var k := n - i;
      assert Frames(n)[i] == Clock(k);
      ClockNotZero(k);
    }
  }
}
