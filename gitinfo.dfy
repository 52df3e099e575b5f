/**
 * The git-derived page metadata: the "3 months ago" text of
 * `get_relative_time`, the changelog that `get_git_changelog` reads from
 * `git log --format=%h|%an|%ct|%s`, and the last-modified instant of
 * `get_git_last_modified`.
 *
 * The git processes and the clock are inputs: each `git` run is given by
 * its exit status and standard output (or by `None` when starting it
 * raised), and the current time is given as whole seconds since the epoch.
 */
module GitInfo {
  import opened Options
  import opened Strings

  // ---------------------------------------------------------------------
  // get_relative_time
  // ---------------------------------------------------------------------

  /** A unit of elapsed time: its singular name and its length in seconds. */
  datatype TimeUnit = TimeUnit(name: string, length: nat)

  /** The units the text counts in, shortest first (a month is 30 days, a year 365). */
  const Units: seq<TimeUnit> := [
    TimeUnit("minute", 60), TimeUnit("hour", 3600), TimeUnit("day", 86400),
    TimeUnit("week", 604800), TimeUnit("month", 2592000), TimeUnit("year", 31536000)]

  /** `f"{count} {unit}{'s' if count != 1 else ''} ago"`. */
  function Ago(count: int, unit: string): string {
    IntToString(count) + " " + unit + (if count != 1 then "s" else "") + " ago"
  }

  /** Every such text ends in " ago". */
  lemma AgoEnds()
    ensures forall count: int, unit: string :: EndsWith(Ago(count, unit), " ago")
  {
    forall count: int, unit: string
      ensures EndsWith(Ago(count, unit), " ago")
    {
      var s := Ago(count, unit);
      assert s[|s| - 4..] == " ago";
    }
  }

  /**
   * The text for `elapsed` whole seconds between a commit and now.
   * Python's `int(seconds / unit)` truncates; every count here is taken of a
   * non-negative number of seconds, where truncation is the floor Dafny's
   * `/` computes.
   */
  function RelativeTime(elapsed: int): (text: string)
    ensures elapsed < 60 ==> text == "just now"
    ensures elapsed >= 60 ==> EndsWith(text, " ago")
  {
    AgoEnds();
    if elapsed < 60 then "just now"
    else if elapsed < 3600 then Ago(elapsed / 60, "minute")
    else if elapsed < 86400 then Ago(elapsed / 3600, "hour")
    else if elapsed < 604800 then Ago(elapsed / 86400, "day")
    else if elapsed < 2592000 then Ago(elapsed / 604800, "week")
    else if elapsed < 31536000 then Ago(elapsed / 2592000, "month")
    else Ago(elapsed / 31536000, "year")
  }

  /**
   * The unit table explains every text: when `Units[i]` is the longest unit
   * that fits into `elapsed`, the text counts whole units of it; the count
   * is at least 1 and stays below the number of such units in the next one.
   */
  lemma RelativeTimeCounts(elapsed: int, i: nat)
    requires i < |Units| && Units[i].length <= elapsed
    requires i + 1 < |Units| ==> elapsed < Units[i + 1].length
    ensures var n := elapsed / Units[i].length;
      && RelativeTime(elapsed) == Ago(n, Units[i].name)
      && n >= 1
      && n * Units[i].length <= elapsed < (n + 1) * Units[i].length
      && (i + 1 < |Units| ==> n <= (Units[i + 1].length - 1) / Units[i].length)
  {
    var next := if i + 1 < |Units| then Units[i + 1].length else elapsed + 1;
    CountIn(elapsed, Units[i].length, next);
  }

  /** Whole units of `length` in `elapsed`, for an `elapsed` below `next`. */
  lemma CountIn(elapsed: int, length: int, next: int)
    requires 0 < length <= elapsed < next
    ensures var n := elapsed / length;
      n >= 1 && n * length <= elapsed < (n + 1) * length && n <= (next - 1) / length
  {
    var n := elapsed / length;
    assert elapsed == length * n + elapsed % length;
    DivMonotone(length, elapsed, length);
    DivMonotone(elapsed, next - 1, length);
  }

  /** Integer division by a positive number is monotone. */
  lemma DivMonotone(a: int, b: int, d: int)
    requires 0 <= a <= b && d > 0
    ensures a / d <= b / d
  {
    var q, r := a / d, b / d;
    assert a == d * q + a % d;
    assert b == d * r + b % d;
    if q > r {
      assert d * q >= d * (r + 1) by { MulMonotone(d, r + 1, q); }
    }
  }

  /** Multiplying by a positive number is monotone. */
  lemma MulMonotone(d: int, x: int, y: int)
    requires d > 0 && x <= y
    ensures d * x <= d * y
  {
  }

  /** The largest count each unit can show before the next unit takes over. */
  lemma RelativeTimeBounds(elapsed: int)
    ensures 60 <= elapsed < 3600 ==> 1 <= elapsed / 60 <= 59
    ensures 3600 <= elapsed < 86400 ==> 1 <= elapsed / 3600 <= 23
    ensures 86400 <= elapsed < 604800 ==> 1 <= elapsed / 86400 <= 6
    ensures 604800 <= elapsed < 2592000 ==> 1 <= elapsed / 604800 <= 4
    ensures 2592000 <= elapsed < 31536000 ==> 1 <= elapsed / 2592000 <= 12
  {
    if 60 <= elapsed < 3600 { RelativeTimeCounts(elapsed, 0); }
    if 3600 <= elapsed < 86400 { RelativeTimeCounts(elapsed, 1); }
    if 86400 <= elapsed < 604800 { RelativeTimeCounts(elapsed, 2); }
    if 604800 <= elapsed < 2592000 { RelativeTimeCounts(elapsed, 3); }
    if 2592000 <= elapsed < 31536000 { RelativeTimeCounts(elapsed, 4); }
  }

  /** A count text starts with the digit of a positive count. */
  lemma AgoStartsWithDigit(count: int, unit: string)
    requires count >= 1
    ensures IsDigit(Ago(count, unit)[0])
  {
    assert IntToString(count) == NatToString(count);
  }

  /** "just now" is the text exactly for less than a minute (a commit in the future included). */
  lemma JustNow(elapsed: int)
    ensures RelativeTime(elapsed) == "just now" <==> elapsed < 60
  {
    if elapsed >= 60 {
      var i := if elapsed < 3600 then 0 else if elapsed < 86400 then 1
        else if elapsed < 604800 then 2 else if elapsed < 2592000 then 3
        else if elapsed < 31536000 then 4 else 5;
      RelativeTimeCounts(elapsed, i);
      AgoStartsWithDigit(elapsed / Units[i].length, Units[i].name);
    }
  }

  /** The unit gets its plural `s` exactly when the count is not 1. */
  lemma AgoPlural(count: int, unit: string)
    requires unit != "" && Last(unit) != 's'
    ensures EndsWith(Ago(count, unit), "s ago") <==> count != 1
  {
    var head := IntToString(count) + " " + unit;
    if count == 1 {
      var s := Ago(count, unit);
      assert s == head + " ago";
      assert s[|s| - 5] == Last(unit);
    }
  }

  // ---------------------------------------------------------------------
  // get_git_changelog
  // ---------------------------------------------------------------------

  /** What one `subprocess.run` of git gave back: its exit status and its standard output. */
  datatype GitRun = GitRun(returncode: int, stdout: string)

  /** One changelog entry, the dictionary with keys hash, author, date, message and relative_time. */
  datatype Commit = Commit(hash: string, author: string, date: int, message: string, relativeTime: string)

  /** What one output line contributes. */
  datatype LineResult =
    | Skipped                 // empty, or fewer than three `|`
    | Entry(commit: Commit)
    | BadTimestamp            // `int(timestamp)` raises `ValueError`

  /** One line of `git log --format=%h|%an|%ct|%s`, with the current time `now`. */
  function LineEntry(line: string, now: int): (r: LineResult)
    ensures r.Entry? ==> '|' !in r.commit.hash && '|' !in r.commit.author
  {
    if line == "" then Skipped
    else
      var parts := SplitN(line, "|", 3);
      if |parts| != 4 then Skipped
      else
        match ParseInt(parts[2])
        case None => BadTimestamp
        case Some(ts) =>
          SplitNCharPiecesFree(line, '|', 3);
          Entry(Commit(parts[0], parts[1], ts, parts[3], RelativeTime(now - ts)))
  }

  /** What each line contributes, line by line. */
  function LineResults(lines: seq<string>, now: int): (results: seq<LineResult>)
    ensures |results| == |lines|
    ensures forall k :: 0 <= k < |lines| ==> results[k] == LineEntry(lines[k], now)
  {
    seq(|lines|, k requires 0 <= k < |lines| => LineEntry(lines[k], now))
  }

  /**
   * The entries of the line results in order, or `None` when one of them is
   * a malformed timestamp: the `ValueError` leaves the loop and the function
   * returns `[]`.
   */
  function Collect(results: seq<LineResult>): (r: Option<seq<Commit>>)
    ensures r.Some? ==> |r.value| <= |results|
    decreases |results|
  {
    if results == [] then Some([])
    else
      match Collect(results[..|results| - 1])
      case None => None
      case Some(done) =>
        match Last(results)
        case Skipped => Some(done)
        case Entry(c) => Some(done + [c])
        case BadTimestamp => None
  }

  /** The entries the output lines give, or `None` for a malformed timestamp. */
  function ParseLines(lines: seq<string>, now: int): (r: Option<seq<Commit>>)
    ensures r.Some? ==> |r.value| <= |lines|
  {
    Collect(LineResults(lines, now))
  }

  /**
   * `get_git_changelog`: `[]` when a git run could not be started, when
   * `git rev-parse` fails, when `git log` fails or prints only whitespace,
   * or when a timestamp is malformed; otherwise the entries of the stripped
   * output's lines.
   */
  function Changelog(revParse: Option<GitRun>, log: Option<GitRun>, now: int): seq<Commit> {
    if revParse.None? || revParse.value.returncode != 0 then []
    else if log.None? || log.value.returncode != 0 || Strip(log.value.stdout, IsSpace) == "" then []
    else ParseLines(Split(Strip(log.value.stdout, IsSpace), "\n"), now).GetOr([])
  }

  /** `get_git_changelog`'s checks of the two git runs, then its loop over the output lines. */
  method GetChangelog(revParse: Option<GitRun>, log: Option<GitRun>, now: int) returns (changelog: seq<Commit>)
    ensures changelog == Changelog(revParse, log, now)
  {
    if revParse.None? || revParse.value.returncode != 0 {
      return [];
    }
    if log.None? || log.value.returncode != 0 || Strip(log.value.stdout, IsSpace) == "" {
      return [];
    }
    changelog := ParseLog(Split(Strip(log.value.stdout, IsSpace), "\n"), now);
  }

  /** The changelog loop: entries are appended line by line, and a malformed timestamp empties the result. */
  method ParseLog(lines: seq<string>, now: int) returns (changelog: seq<Commit>)
    ensures changelog == ParseLines(lines, now).GetOr([])
  {
    ghost var results := LineResults(lines, now);
    changelog := [];
    var i := 0;
    while i < |lines|
      invariant 0 <= i <= |lines|
      invariant Collect(results[..i]) == Some(changelog)
    {
      var line := LineEntry(lines[i], now);
      CollectNext(results, i, changelog);
      match line {
        case Skipped =>
        case Entry(c) =>
          changelog := changelog + [c];
        case BadTimestamp =>
          NoneStaysNone(results, i + 1);
          return [];
      }
      i := i + 1;
    }
    assert results[..i] == results;
  }

  /** One more line result extends the collection as the loop body does. */
  lemma CollectNext(results: seq<LineResult>, i: nat, done: seq<Commit>)
    requires i < |results| && Collect(results[..i]) == Some(done)
    ensures results[i].Skipped? ==> Collect(results[..i + 1]) == Some(done)
    ensures results[i].Entry? ==> Collect(results[..i + 1]) == Some(done + [results[i].commit])
    ensures results[i].BadTimestamp? ==> Collect(results[..i + 1]).None?
  {
    assert results[..i + 1][..i] == results[..i];
  }

  /** Once a prefix of the results holds a malformed timestamp, so do all longer prefixes. */
  lemma {:induction false} NoneStaysNone(results: seq<LineResult>, i: nat)
    requires i <= |results| && Collect(results[..i]).None?
    ensures Collect(results).None?
    decreases |results| - i
  {
    if i < |results| {
      assert results[..i + 1][..i] == results[..i];
      NoneStaysNone(results, i + 1);
    } else {
      assert results[..i] == results;
    }
  }

  /** The exception case: the collection fails exactly when some line has a malformed timestamp. */
  lemma {:induction false} CollectFails(results: seq<LineResult>)
    ensures Collect(results).None? <==> exists k :: 0 <= k < |results| && results[k].BadTimestamp?
    decreases |results|
  {
    if results != [] {
      var n := |results| - 1;
      var init := results[..n];
      CollectFails(init);
      if Collect(init).None? {
        var k :| 0 <= k < |init| && init[k].BadTimestamp?;
        assert results[k] == init[k];
      } else if !results[n].BadTimestamp? {
        forall k | 0 <= k < n
          ensures !results[k].BadTimestamp?
        {
          assert results[k] == init[k];
        }
      }
    }
  }

  /** One malformed timestamp anywhere empties the whole changelog; otherwise nothing is lost. */
  lemma ParseLinesFails(lines: seq<string>, now: int)
    ensures ParseLines(lines, now).None? <==>
      exists k :: 0 <= k < |lines| && LineEntry(lines[k], now).BadTimestamp?
  {
    var results := LineResults(lines, now);
    CollectFails(results);
    if exists k :: 0 <= k < |lines| && LineEntry(lines[k], now).BadTimestamp? {
      var k :| 0 <= k < |lines| && LineEntry(lines[k], now).BadTimestamp?;
      assert results[k].BadTimestamp?;
    }
  }

  /** Results that are all entries collect to those entries, in order. */
  lemma {:induction false} CollectEntries(results: seq<LineResult>)
    requires forall k :: 0 <= k < |results| ==> results[k].Entry?
    ensures Collect(results) == Some(Commits(results))
    decreases |results|
  {
    if results != [] {
      var n := |results| - 1;
      var init := results[..n];
      CollectEntries(init);
      assert Commits(results) == Commits(init) + [results[n].commit];
    }
  }

  /** The commits of entry results. */
  function Commits(results: seq<LineResult>): (commits: seq<Commit>)
    requires forall k :: 0 <= k < |results| ==> results[k].Entry?
    ensures |commits| == |results|
    ensures forall k :: 0 <= k < |results| ==> commits[k] == results[k].commit
  {
    seq(|results|, k requires 0 <= k < |results| => results[k].commit)
  }

  /** A line gives an entry or a timestamp error exactly when it holds at least three `|`. */
  lemma LineEntryNeedsThreeBars(line: string, now: int)
    ensures LineEntry(line, now).Skipped? <==> CountChar(line, '|') < 3
  {
    SplitNCharCount(line, '|', 3);
  }

  /**
   * An entry's fields are the line's pieces: hash and author hold no `|`,
   * and the message is everything after the third `|`, bars included.
   */
  lemma LineEntryFields(line: string, now: int)
    requires LineEntry(line, now).Entry?
    ensures var c := LineEntry(line, now).commit;
      var stamp := SplitN(line, "|", 3)[2];
      && line == c.hash + "|" + c.author + "|" + stamp + "|" + c.message
      && '|' !in c.hash && '|' !in c.author && '|' !in stamp
      && ParseInt(stamp) == Some(c.date)
      && c.relativeTime == RelativeTime(now - c.date)
  {
    var parts := SplitN(line, "|", 3);
    var ts := ParseInt(parts[2]).value;
    assert LineEntry(line, now) == Entry(Commit(parts[0], parts[1], ts, parts[3], RelativeTime(now - ts)));
    JoinSplitN(line, "|", 3);
    SplitNCharPiecesFree(line, '|', 3);
    JoinFour("|", parts);
  }

  /** A commit as `git log --format=%h|%an|%ct|%s` describes it. */
  datatype LogRecord = LogRecord(hash: string, author: string, time: int, subject: string)

  /** The output line git prints for a record. */
  function LogLine(r: LogRecord): string {
    r.hash + "|" + r.author + "|" + IntToString(r.time) + "|" + r.subject
  }

  /** The lines of a log. */
  function LogLines(records: seq<LogRecord>): (lines: seq<string>)
    ensures |lines| == |records| && forall k :: 0 <= k < |records| ==> lines[k] == LogLine(records[k])
  {
    seq(|records|, k requires 0 <= k < |records| => LogLine(records[k]))
  }

  /** The standard output of `git log`: each record's line ended by a newline. */
  function LogOutput(records: seq<LogRecord>): string
    decreases |records|
  {
    if records == [] then "" else LogLine(records[0]) + "\n" + LogOutput(records[1..])
  }

  /**
   * What git prints for a commit: an abbreviated hash without blanks or
   * bars, an author name without bars or newlines, a one-line subject.
   */
  predicate Printable(r: LogRecord) {
    && r.hash != ""
    && (forall k :: 0 <= k < |r.hash| ==> !IsSpace(r.hash[k]) && r.hash[k] != '|')
    && '|' !in r.author && '\n' !in r.author
    && '\n' !in r.subject
  }

  /**
   * A log git can print whose last line does not end in white space (which
   * `strip()` would otherwise take from the last subject).
   */
  predicate PrintableLog(records: seq<LogRecord>) {
    && (forall k :: 0 <= k < |records| ==> Printable(records[k]))
    && (records != [] && Last(records).subject != "" ==> !IsSpace(Last(Last(records).subject)))
  }

  /** The entry `get_git_changelog` makes of a record. */
  function Described(r: LogRecord, now: int): Commit {
    Commit(r.hash, r.author, r.time, r.subject, RelativeTime(now - r.time))
  }

  /** The entries of a log, in its order. */
  function DescribedAll(records: seq<LogRecord>, now: int): (entries: seq<Commit>)
    ensures |entries| == |records| &&
      forall k :: 0 <= k < |records| ==> entries[k] == Described(records[k], now)
  {
    seq(|records|, k requires 0 <= k < |records| => Described(records[k], now))
  }

  /** The decimal text of an integer holds neither a bar nor a newline. */
  lemma IntToStringPlain(i: int)
    ensures '|' !in IntToString(i) && '\n' !in IntToString(i)
  {
    var digits := NatToString(if i < 0 then -i else i);
    assert forall k :: 0 <= k < |digits| ==> IsDigit(digits[k]);
  }

  /** A printable record's line is parsed back into that record's entry. */
  lemma LineEntryOfLogLine(r: LogRecord, now: int)
    requires Printable(r)
    ensures LineEntry(LogLine(r), now) == Entry(Described(r, now))
  {
    var stamp := IntToString(r.time);
    var parts := [r.hash, r.author, stamp, r.subject];
    var line := LogLine(r);
    assert line == Join("|", parts) by {
      JoinFour("|", parts);
    }
    assert SplitN(line, "|", 3) == parts by {
      IntToStringPlain(r.time);
      assert forall k :: 0 <= k < |parts| - 1 ==> '|' !in parts[k];
      SplitNJoinChar(parts, '|', 3);
    }
    assert ParseInt(parts[2]) == Some(r.time) by {
      ParseIntOfString(r.time);
    }
    assert line != "" by {
      assert line[0] == r.hash[0];
    }
    assert LineEntry(line, now) == Entry(Commit(parts[0], parts[1], r.time, parts[3], RelativeTime(now - r.time)));
  }

  /** The output of `git log` is its lines joined by newlines, plus the final newline. */
  lemma {:induction false} LogOutputJoin(records: seq<LogRecord>)
    requires records != []
    ensures LogOutput(records) == Join("\n", LogLines(records)) + "\n"
    decreases |records|
  {
    if |records| > 1 {
      var rest := records[1..];
      LogOutputJoin(rest);
      assert LogLines(records) == [LogLine(records[0])] + LogLines(rest);
      JoinCons("\n", LogLine(records[0]), LogLines(rest));
    }
  }

  /** No printable record's line holds a newline. */
  lemma LogLinePlain(r: LogRecord)
    requires Printable(r)
    ensures '\n' !in LogLine(r)
  {
    IntToStringPlain(r.time);
    assert '\n' !in r.hash;
  }

  /** The last character of a record's line: that of its subject, or the bar before an empty one. */
  lemma LogLineLast(r: LogRecord)
    ensures LogLine(r) != "" && Last(LogLine(r)) == if r.subject == "" then '|' else Last(r.subject)
  {
  }

  /**
   * Stripping the output of a printable log removes just the final newline,
   * when the last subject does not end in white space.
   */
  lemma StripLogOutput(records: seq<LogRecord>)
    requires records != [] && records[0].hash != "" && !IsSpace(records[0].hash[0])
    requires Last(records).subject != "" ==> !IsSpace(Last(Last(records).subject))
    ensures Strip(LogOutput(records), IsSpace) == Join("\n", LogLines(records))
    ensures Join("\n", LogLines(records)) != ""
  {
    var text := Join("\n", LogLines(records));
    assert text != "" && !IsSpace(text[0]) by {
      LogTextFirst(records);
    }
    assert !IsSpace(text[|text| - 1]) by {
      LogTextLast(records);
    }
    StripNewline(text);
    LogOutputJoin(records);
  }

  /** The joined lines start with the first hash character. */
  lemma LogTextFirst(records: seq<LogRecord>)
    requires records != [] && records[0].hash != ""
    ensures Join("\n", LogLines(records)) != ""
    ensures Join("\n", LogLines(records))[0] == records[0].hash[0]
  {
    var lines := LogLines(records);
    assert lines[0] == LogLine(records[0]);
    JoinFirst("\n", lines);
  }

  /** The joined lines end with the last character of the last line. */
  lemma LogTextLast(records: seq<LogRecord>)
    requires records != []
    ensures var text := Join("\n", LogLines(records));
      var r := records[|records| - 1];
      text != "" && text[|text| - 1] == if r.subject == "" then '|' else r.subject[|r.subject| - 1]
  {
    var lines := LogLines(records);
    var r := records[|records| - 1];
    assert Last(lines) == LogLine(r);
    LogLineLast(r);
    JoinLast("\n", lines);
  }

  /**
   * The round trip with git's output format: for printable commits, the
   * changelog holds one entry per commit, in git's order, with the hash,
   * author, time and whole subject (bars included) that git printed.
   */
  lemma ChangelogRoundTrip(revParse: GitRun, records: seq<LogRecord>, now: int)
    requires revParse.returncode == 0 && PrintableLog(records)
    ensures Changelog(Some(revParse), Some(GitRun(0, LogOutput(records))), now) == DescribedAll(records, now)
  {
    if records != [] {
      LogOutputLines(records);
      ParseLogLines(records, now);
    }
  }

  /** The stripped output of a printable log splits into its lines. */
  lemma LogOutputLines(records: seq<LogRecord>)
    requires records != [] && PrintableLog(records)
    ensures Strip(LogOutput(records), IsSpace) != ""
    ensures Split(Strip(LogOutput(records), IsSpace), "\n") == LogLines(records)
  {
    assert Printable(records[0]);
    StripLogOutput(records);
    SplitLogLines(records);
  }

  /** Splitting the joined lines of a printable log on newlines gives its lines back. */
  lemma SplitLogLines(records: seq<LogRecord>)
    requires records != [] && forall k :: 0 <= k < |records| ==> Printable(records[k])
    ensures Split(Join("\n", LogLines(records)), "\n") == LogLines(records)
  {
    var lines := LogLines(records);
    forall k | 0 <= k < |lines|
      ensures '\n' !in lines[k]
    {
      LogLinePlain(records[k]);
    }
    SplitJoinChar(lines, '\n');
  }

  /** The lines of a printable log parse into the entries of its records, in order. */
  lemma ParseLogLines(records: seq<LogRecord>, now: int)
    requires PrintableLog(records)
    ensures ParseLines(LogLines(records), now) == Some(DescribedAll(records, now))
  {
    var results := LineResults(LogLines(records), now);
    forall k | 0 <= k < |results|
      ensures results[k] == Entry(Described(records[k], now))
    {
      LineEntryOfLogLine(records[k], now);
    }
    CollectEntries(results);
    assert Commits(results) == DescribedAll(records, now);
  }

  // ---------------------------------------------------------------------
  // get_git_last_modified
  // ---------------------------------------------------------------------

  /**
   * `get_git_last_modified`: the commit time `git log -1 --format=%ct`
   * printed, or `None` when a run could not be started, `git rev-parse`
   * fails, `git log` fails or prints only white space, or `int()` rejects
   * the text.
   */
  function LastModified(revParse: Option<GitRun>, log: Option<GitRun>): (r: Option<int>)
    ensures r.Some? ==> revParse.Some? && revParse.value.returncode == 0
    ensures r.Some? ==> log.Some? && log.value.returncode == 0
  {
    if revParse.None? || revParse.value.returncode != 0 then None
    else if log.None? || log.value.returncode != 0 || Strip(log.value.stdout, IsSpace) == "" then None
    else ParseInt(Strip(log.value.stdout, IsSpace))
  }

  /** The round trip with git's output: the time git printed on its line is the time returned. */
  lemma LastModifiedRoundTrip(revParse: GitRun, time: int)
    requires revParse.returncode == 0
    ensures LastModified(Some(revParse), Some(GitRun(0, IntToString(time) + "\n"))) == Some(time)
  {
    var text := IntToString(time);
    var digits := NatToString(if time < 0 then -time else time);
    assert IsDigit(Last(digits));
    assert text != "" && (IsDigit(text[0]) || text[0] == '-') && Last(text) == Last(digits);
    StripNewline(text);
    ParseIntOfString(time);
  }
}
