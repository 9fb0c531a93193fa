/** Reading `git log` text (src/quellgeist/ingest/sources.py, `from_git_log_text`): a header line
    `sha<US>date<US>subject`, then changed files, one a line, until a blank line. */
module GitLog {
  import opened Strings

  datatype Commit = Commit(sha: string, ts: string, msg: string, files: seq<string>)

  const US := '\U{1F}'

  // --- lines ---------------------------------------------------------------------------------

  /** The characters at which `str.splitlines` breaks. */
  predicate IsBreak(c: char) {
    '\n' <= c <= '\r' || '\U{1C}' <= c <= '\U{1E}' || c == '\U{85}' || c == '\U{2028}' || c == '\U{2029}'
  }

  /** The position of the first break at or after `i`. */
  function BreakAt(s: string, i: nat): (k: nat)
    requires i <= |s|
    ensures i <= k <= |s| && (k < |s| ==> IsBreak(s[k])) && forall j :: i <= j < k ==> !IsBreak(s[j])
    decreases |s| - i
  {
    if i == |s| || IsBreak(s[i]) then i else BreakAt(s, i + 1)
  }

  /** `str.splitlines`: a break ends a line, `\r\n` is one break. */
  function Lines(s: string): seq<string>
    decreases |s|
  {
    if s == "" then []
    else
      var k := BreakAt(s, 0);
      if k == |s| then [s]
      else [s[..k]] + Lines(s[if s[k] == '\r' && k + 1 < |s| && s[k + 1] == '\n' then k + 2 else k + 1..])
  }

  function Joined(lines: seq<string>): string {
    if lines == [] then "" else lines[0] + "\n" + Joined(lines[1..])
  }

  predicate Unbroken(s: string) {
    forall c <- s :: !IsBreak(c)
  }

  lemma {:induction false} LinesOfJoined(lines: seq<string>)
    requires forall l <- lines :: Unbroken(l)
    ensures Lines(Joined(lines)) == lines
  {
    if lines != [] {
      var s, k := Joined(lines), BreakAt(Joined(lines), 0);
      assert s[|lines[0]|] == '\n';
      assert Unbroken(lines[0]);
      assert forall j :: 0 <= j < |lines[0]| ==> s[j] == lines[0][j] && lines[0][j] in lines[0];
      assert IsBreak(s[|lines[0]|]);
      assert k == |lines[0]|;
      assert s[..k] == lines[0] && s[k + 1..] == Joined(lines[1..]);
      LinesOfJoined(lines[1..]);
    }
  }

  /** The code points of the line breaks, one by one. */
  ghost predicate Breaks(c: char) {
    var n := c as int;
    n == 10 || n == 11 || n == 12 || n == 13 || n == 28 || n == 29 || n == 30 || n == 133 || n == 8232 || n == 8233
  }

  /** What ends this line, given the text after it: one break, or both of a `\r\n`; or the end of the
      text, if there is something in the line. */
  ghost predicate EndsLine(end: string, line: string, rest: string) {
    || (|end| == 1 && Breaks(end[0]) && !(end == "\r" && rest != "" && rest[0] == '\n'))
    || end == "\r\n"
    || (end == "" && rest == "" && line != "")
  }

  ghost predicate SplitInto(s: string, lines: seq<string>)
    decreases |lines|
  {
    if lines == [] then s == ""
    else exists end, rest :: StartsLine(s, lines[0], end, rest) && SplitInto(rest, lines[1..])
  }

  ghost predicate StartsLine(s: string, line: string, end: string, rest: string) {
    s == line + (end + rest) && EndsLine(end, line, rest) && forall i :: 0 <= i < |line| ==> !Breaks(line[i])
  }

  lemma {:induction false} LinesSplit(s: string)
    ensures SplitInto(s, Lines(s))
    decreases |s|
  {
    if s != "" {
      var line, end, rest := FirstLine(s);
      LinesSplit(rest);
      assert Lines(s)[0] == line && Lines(s)[1..] == Lines(rest);
      assert SplitInto(rest, Lines(s)[1..]);
    }
  }

  lemma FirstLine(s: string) returns (line: string, end: string, rest: string)
    requires s != ""
    ensures StartsLine(s, line, end, rest) && Lines(s) == [line] + Lines(rest) && |rest| < |s|
  {
    var k := BreakAt(s, 0);
    var n := if k == |s| then k else if s[k] == '\r' && k + 1 < |s| && s[k + 1] == '\n' then k + 2 else k + 1;
    line, end, rest := s[..k], s[k..n], s[n..];
    if k == |s| {
      assert line == s && rest == "" && [s] + [] == [s];
    } else {
      LinesUnfold(s, k, n);
      EndIs(s, k, n);
    }
    ThreePieces(s, k, n);
  }

  lemma ThreePieces(s: string, k: nat, n: nat)
    requires k <= n <= |s|
    ensures s == s[..k] + (s[k..n] + s[n..])
  {
  }

  lemma EndIs(s: string, k: nat, n: nat)
    requires k < |s| && IsBreak(s[k])
    requires n == if s[k] == '\r' && k + 1 < |s| && s[k + 1] == '\n' then k + 2 else k + 1
    ensures EndsLine(s[k..n], s[..k], s[n..])
  {
    if n == k + 1 {
      assert s[k..n] == [s[k]] && (n < |s| ==> s[n..][0] == s[n]);
    } else {
      assert s[k..n] == [s[k], s[k + 1]];
    }
  }

  /** A text has one split into lines, which is the one that is found. */
  lemma {:induction false} LinesMean(s: string, lines: seq<string>)
    ensures SplitInto(s, lines) <==> Lines(s) == lines
    decreases |lines|
  {
    LinesSplit(s);
    if lines != [] && SplitInto(s, lines) {
      var end, rest :| StartsLine(s, lines[0], end, rest) && SplitInto(rest, lines[1..]);
      LinesMean(rest, lines[1..]);
      FirstBreak(s, lines[0], end, rest);
      assert lines == [lines[0]] + lines[1..];
    }
  }

  lemma {:induction false} BreakIsAt(s: string, i: nat, k: nat)
    requires i <= k <= |s| && (k < |s| ==> Breaks(s[k])) && forall j :: i <= j < k ==> !Breaks(s[j])
    ensures BreakAt(s, i) == k
    decreases k - i
  {
    if i < k {
      BreakIsAt(s, i + 1, k);
    }
  }

  lemma FirstBreak(s: string, line: string, end: string, rest: string)
    requires StartsLine(s, line, end, rest)
    ensures Lines(s) == [line] + Lines(rest)
  {
    LineIsFirst(s, line, end, rest);
    BreakIsAt(s, 0, |line|);
    if end == "" {
      LastLine(s, line);
    } else {
      LinesUnfold(s, |line|, |line| + |end|);
    }
  }

  lemma LastLine(s: string, line: string)
    requires s == line && s != "" && BreakAt(s, 0) == |s|
    ensures Lines(s) == [line] + Lines("")
  {
    assert [line] + [] == [line];
  }

  lemma LinesUnfold(s: string, k: nat, n: nat)
    requires s != "" && BreakAt(s, 0) == k < |s|
    requires n == if s[k] == '\r' && k + 1 < |s| && s[k + 1] == '\n' then k + 2 else k + 1
    ensures Lines(s) == [s[..k]] + Lines(s[n..])
  {
  }

  lemma LineIsFirst(s: string, line: string, end: string, rest: string)
    requires StartsLine(s, line, end, rest)
    ensures |line| <= |s| && s[..|line|] == line && s[|line| + |end|..] == rest
    ensures forall i :: 0 <= i < |line| ==> !Breaks(s[i])
    ensures end != "" ==> |line| < |s| && s[|line|] == end[0]
    ensures |end| == 1 && rest != "" ==> s[|line| + 1] == rest[0]
    ensures |end| == 2 ==> s[|line| + 1] == end[1]
    ensures end == "" ==> s == line && rest == "" && s != ""
  {
  }

  // --- one line --------------------------------------------------------------------------------

  /** `line.split(US)`. */
  function Parts(s: string): (parts: seq<string>)
    ensures |parts| >= 1
  {
    if s == "" then [""]
    else
      var rest := Parts(s[1..]);
      if s[0] == US then [""] + rest else [[s[0]] + rest[0]] + rest[1..]
  }

  predicate Header(line: string) {
    |Parts(line)| >= 3
  }

  predicate Blank(line: string) {
    !Header(line) && Strip(line) == ""
  }

  /** The commits so far, and whether the last one still takes files. */
  datatype State = State(commits: seq<Commit>, open: bool)

  function Step(st: State, line: string): State {
    if Header(line) then
      var parts := Parts(line);
      State(st.commits + [Commit(Strip(parts[0]), Strip(parts[1]), Strip(parts[2]), [])], true)
    else if Strip(line) == "" then st.(open := false)
    else if st.open && st.commits != [] then st.(commits := WithFile(st.commits, Strip(line)))
    else st
  }

  /** The last commit with one more file. */
  function WithFile(commits: seq<Commit>, file: string): seq<Commit>
    requires commits != []
  {
    var n := |commits| - 1;
    commits[n := commits[n].(files := commits[n].files + [file])]
  }

  function Fold(st: State, lines: seq<string>): State
    decreases lines
  {
    if lines == [] then st else Fold(Step(st, lines[0]), lines[1..])
  }

  function FromText(text: string): seq<Commit> {
    Fold(State([], false), Lines(text)).commits
  }

  /** `from_git_log_text`. */
  method FromGitLogText(text: string) returns (commits: seq<Commit>)
    ensures commits == FromText(text)
  {
    commits := [];
    var current := false;
    var lines := Lines(text);
    for i := 0 to |lines|
      invariant current ==> commits != []
      invariant Fold(State(commits, current), lines[i..]) == Fold(State([], false), lines)
    {
      var line := lines[i];
      assert lines[i..][0] == line && lines[i..][1..] == lines[i + 1..];
      NoSeparatorIsOnePart(line);
      if US in line {
        var parts := Parts(line);
        if |parts| >= 3 {
          commits := commits + [Commit(Strip(parts[0]), Strip(parts[1]), Strip(parts[2]), [])];
          current := true;
          continue;
        }
      }
      var stripped := Strip(line);
      if stripped == "" {
        current := false;
      } else if current {
        commits := WithFile(commits, stripped);
      }
    }
  }

  lemma {:induction false} NoSeparatorIsOnePart(line: string)
    ensures US !in line ==> Parts(line) == [line]
  {
    if line != "" {
      NoSeparatorIsOnePart(line[1..]);
      if US !in line {
        assert [line[0]] + line[1..] == line;
      }
    }
  }

  // --- the parse, told by looking ahead ------------------------------------------------------------

  /** The line is these pieces with a separator between any two. */
  ghost predicate Pieces(line: string, sha: string, ts: string, msg: string, more: string) {
    && line == sha + [US] + (ts + [US] + (msg + more))
    && US !in sha && US !in ts && US !in msg && (more == "" || more[0] == US)
  }

  /** The commit that a header line with at least two separators opens: its first three pieces,
      stripped. */
  ghost predicate Announces(line: string, c: Commit) {
    exists sha, ts, msg, more ::
      Pieces(line, sha, ts, msg, more) && c == Commit(Strip(sha), Strip(ts), Strip(msg), [])
  }

  /** What the lines of one commit list: stripped, up to the next header or blank line. */
  function FilesFrom(lines: seq<string>): seq<string> {
    if lines == [] || Header(lines[0]) || Strip(lines[0]) == "" then [] else [Strip(lines[0])] + FilesFrom(lines[1..])
  }

  /** The commits are those that the lines announce, in order, each with the files that follow. */
  ghost predicate Lists(lines: seq<string>, commits: seq<Commit>) {
    if lines == [] then commits == []
    else if exists c :: Announces(lines[0], c) then
      && commits != [] && Announces(lines[0], commits[0].(files := [])) && commits[0].files == FilesFrom(lines[1..])
      && Lists(lines[1..], commits[1..])
    else Lists(lines[1..], commits)
  }

  lemma {:induction false} PiecesAre(line: string) returns (first: string, rest: string)
    ensures line == first + rest && US !in first && (rest == "" || rest[0] == US)
    ensures Parts(line) == [first] + if rest == "" then [] else Parts(rest[1..])
  {
    first, rest := "", line;
    if line != "" && line[0] != US {
      first, rest := PiecesAre(line[1..]);
      first := [line[0]] + first;
    }
  }

  lemma HeaderAnnounces(line: string)
    requires Header(line)
    ensures var p := Parts(line); Announces(line, Commit(Strip(p[0]), Strip(p[1]), Strip(p[2]), []))
  {
    var sha, r1 := FirstOfMore(line);
    var ts, r2 := FirstOfMore(r1);
    var msg, more := PiecesAre(r2);
    assert Parts(line)[1] == Parts(r1)[0] && Parts(line)[2] == Parts(r1)[1] == Parts(r2)[0];
    assert Pieces(line, sha, ts, msg, more);
  }

  lemma FirstOfMore(s: string) returns (first: string, rest: string)
    requires |Parts(s)| >= 2
    ensures s == first + [US] + rest && US !in first && Parts(s) == [first] + Parts(rest)
  {
    var after;
    first, after := PiecesAre(s);
    rest := after[1..];
    assert after == [US] + rest;
  }

  lemma AnnouncedIsHeader(line: string, c: Commit)
    requires Announces(line, c)
    ensures Header(line)
  {
    var sha, ts, msg, more :| Pieces(line, sha, ts, msg, more) && c == Commit(Strip(sha), Strip(ts), Strip(msg), []);
    PartsOfPieces(line, sha, ts, msg, more);
  }

  lemma PartsOfPieces(line: string, sha: string, ts: string, msg: string, more: string)
    requires Pieces(line, sha, ts, msg, more)
    ensures |Parts(line)| >= 3 && Parts(line)[..3] == [sha, ts, msg]
  {
    PartsCons(sha, ts + [US] + (msg + more));
    PartsCons(ts, msg + more);
    FirstPart(msg, more);
  }

  lemma FirstPart(first: string, more: string)
    requires US !in first && (more == "" || more[0] == US)
    ensures Parts(first + more)[0] == first
  {
    if more == "" {
      assert first + more == first;
      NoSeparatorIsOnePart(first);
    } else {
      assert first + more == first + [US] + more[1..];
      PartsCons(first, more[1..]);
    }
  }

  /** The commits that the rest of the lines adds to a state. */
  ghost predicate Adds(st: State, lines: seq<string>, commits: seq<Commit>) {
    var n := |st.commits|;
    && n <= |commits| && Lists(lines, commits[n..])
    && commits[..n] == if st.open && n > 0 then
                         st.commits[n - 1 := st.commits[n - 1].(files := st.commits[n - 1].files + FilesFrom(lines))]
                       else st.commits
  }

  lemma HeaderAdds(st: State, line: string, rest: seq<string>, commits: seq<Commit>)
    requires Header(line) && Adds(Step(st, line), rest, commits)
    ensures Adds(st, [line] + rest, commits)
  {
    HeaderAnnounces(line);
    var p := Parts(line);
    AnnouncedAdds(st, Commit(Strip(p[0]), Strip(p[1]), Strip(p[2]), []), line, rest, commits);
  }

  lemma AnnouncedAdds(st: State, c: Commit, line: string, rest: seq<string>, commits: seq<Commit>)
    requires Header(line) && Announces(line, c) && c.files == []
    requires Adds(State(st.commits + [c], true), rest, commits)
    ensures Adds(st, [line] + rest, commits)
  {
    var lines, n := [line] + rest, |st.commits|;
    assert lines[1..] == rest;
    assert commits[..n + 1][n] == commits[n] == c.(files := [] + FilesFrom(rest));
    assert commits[n..][1..] == commits[n + 1..] && commits[n].(files := []) == c;
    assert commits[..n + 1][..n] == commits[..n];
    assert FilesFrom(lines) == [];
    if st.open && n > 0 {
      assert st.commits[n - 1].files + [] == st.commits[n - 1].files;
    }
  }

  lemma OtherAdds(st: State, line: string, rest: seq<string>, commits: seq<Commit>)
    requires !Header(line) && Adds(Step(st, line), rest, commits)
    ensures Adds(st, [line] + rest, commits)
  {
    var lines, n := [line] + rest, |st.commits|;
    assert lines[1..] == rest;
    forall c ensures !Announces(line, c) {
      if Announces(line, c) { AnnouncedIsHeader(line, c); }
    }
    if st.open && n > 0 {
      var files := st.commits[n - 1].files;
      if Strip(line) == "" {
        assert files + [] == files;
      } else {
        assert files + ([Strip(line)] + FilesFrom(rest)) == files + [Strip(line)] + FilesFrom(rest);
      }
    }
  }

  lemma {:induction false} FoldAdds(st: State, lines: seq<string>)
    ensures Adds(st, lines, Fold(st, lines).commits)
    decreases lines
  {
    if lines == [] {
      if st.open && st.commits != [] {
        var n := |st.commits|;
        assert st.commits[n - 1].files + [] == st.commits[n - 1].files;
      }
    } else {
      FoldAdds(Step(st, lines[0]), lines[1..]);
      assert lines == [lines[0]] + lines[1..];
      if Header(lines[0]) {
        HeaderAdds(st, lines[0], lines[1..], Fold(st, lines).commits);
      } else {
        OtherAdds(st, lines[0], lines[1..], Fold(st, lines).commits);
      }
    }
  }

  /** The parse of any text, told without a state: the commits that its lines announce, in order,
      each with the lines that follow up to the next header or blank line. */
  lemma ParseMeans(text: string, lines: seq<string>)
    requires SplitInto(text, lines)
    ensures Lists(lines, FromText(text))
  {
    LinesMean(text, lines);
    FoldAdds(State([], false), lines);
    assert FromText(text)[0..] == FromText(text);
  }

  // --- the round trip ----------------------------------------------------------------------------

  predicate Clean(field: string) {
    Strip(field) == field && US !in field && Unbroken(field)
  }

  predicate Printable(c: Commit) {
    Clean(c.sha) && Clean(c.ts) && Clean(c.msg) && forall f <- c.files :: Clean(f) && f != ""
  }

  function HeaderLine(c: Commit): string {
    c.sha + [US] + (c.ts + [US] + c.msg)
  }

  function CommitLines(c: Commit): seq<string> {
    [HeaderLine(c)] + (c.files + [""])
  }

  function LogLines(commits: seq<Commit>): seq<string> {
    if commits == [] then [] else CommitLines(commits[0]) + LogLines(commits[1..])
  }

  lemma {:induction false} PartsCons(a: string, rest: string)
    requires US !in a
    ensures Parts(a + [US] + rest) == [a] + Parts(rest)
  {
    if a == "" {
      assert ("" + [US] + rest)[1..] == rest;
    } else {
      assert (a + [US] + rest)[1..] == a[1..] + [US] + rest;
      PartsCons(a[1..], rest);
      assert [a[0]] + a[1..] == a;
    }
  }

  lemma HeaderParts(c: Commit)
    requires Printable(c)
    ensures Parts(HeaderLine(c)) == [c.sha, c.ts, c.msg]
  {
    PartsCons(c.sha, c.ts + [US] + c.msg);
    PartsCons(c.ts, c.msg);
    NoSeparatorIsOnePart(c.msg);
  }

  lemma StepFile(st: State, file: string)
    requires st.open && st.commits != [] && Clean(file) && file != ""
    ensures Step(st, file) == State(WithFile(st.commits, file), true)
  {
    NoSeparatorIsOnePart(file);
  }

  lemma FoldFirst(st: State, line: string, rest: seq<string>)
    ensures Fold(st, [line] + rest) == Fold(Step(st, line), rest)
  {
    assert ([line] + rest)[1..] == rest;
  }

  lemma BlankCloses(st: State)
    ensures Step(st, "") == st.(open := false)
  {
    assert Parts("") == [""];
  }

  /** The files of the last commit, up to the blank line. */
  lemma {:induction false} FoldFiles(before: seq<Commit>, c: Commit, files: seq<string>, rest: seq<string>)
    requires forall f <- files :: Clean(f) && f != ""
    ensures Fold(State(before + [c], true), files + ([""] + rest)) ==
      Fold(State(before + [c.(files := c.files + files)], false), rest)
    decreases files
  {
    var st := State(before + [c], true);
    if files == [] {
      assert files + ([""] + rest) == [""] + rest && c.files + files == c.files;
      FoldFirst(st, "", rest);
      BlankCloses(st);
    } else {
      assert files + ([""] + rest) == [files[0]] + (files[1..] + ([""] + rest));
      FoldFirst(st, files[0], files[1..] + ([""] + rest));
      assert Clean(files[0]);
      StepFile(st, files[0]);
      var next := c.(files := c.files + [files[0]]);
      assert WithFile(before + [c], files[0]) == before + [next];
      FoldFiles(before, next, files[1..], rest);
      assert c.files + [files[0]] + files[1..] == c.files + files;
    }
  }

  lemma StepHeader(before: seq<Commit>, c: Commit)
    requires Printable(c)
    ensures Step(State(before, false), HeaderLine(c)) == State(before + [c.(files := [])], true)
  {
    HeaderParts(c);
  }

  lemma FoldCommit(before: seq<Commit>, c: Commit, rest: seq<string>)
    requires Printable(c)
    ensures Fold(State(before, false), CommitLines(c) + rest) == Fold(State(before + [c], false), rest)
  {
    assert CommitLines(c) + rest == [HeaderLine(c)] + (c.files + ([""] + rest));
    FoldFirst(State(before, false), HeaderLine(c), c.files + ([""] + rest));
    StepHeader(before, c);
    FoldFiles(before, c.(files := []), c.files, rest);
    assert [] + c.files == c.files;
  }

  predicate AllPrintable(commits: seq<Commit>) {
    forall c <- commits :: Printable(c)
  }

  lemma Regroup(before: seq<Commit>, commits: seq<Commit>)
    requires commits != []
    ensures (before + [commits[0]]) + commits[1..] == before + commits
  {
  }

  lemma {:induction false} FoldLog(before: seq<Commit>, commits: seq<Commit>)
    requires AllPrintable(commits)
    ensures Fold(State(before, false), LogLines(commits)) == State(before + commits, false)
    decreases commits
  {
    if commits == [] {
      assert before + commits == before;
    } else {
      var c, later := commits[0], commits[1..];
      assert AllPrintable(later) && Printable(c);
      FoldCommit(before, c, LogLines(later));
      FoldLog(before + [c], later);
      Regroup(before, commits);
    }
  }

  lemma {:induction false} LogIsUnbroken(commits: seq<Commit>)
    requires AllPrintable(commits)
    ensures forall l <- LogLines(commits) :: Unbroken(l)
  {
    if commits != [] {
      LogIsUnbroken(commits[1..]);
      assert Printable(commits[0]);
    }
  }

  /** Printing commits and parsing the text gives back the same commits. */
  lemma GitLogRoundTrip(commits: seq<Commit>)
    requires AllPrintable(commits)
    ensures FromText(Joined(LogLines(commits))) == commits
  {
    LogIsUnbroken(commits);
    LinesOfJoined(LogLines(commits));
    FoldLog([], commits);
    assert [] + commits == commits;
  }

  // --- noise ---------------------------------------------------------------------------------------

  lemma {:induction false} FoldConcat(st: State, a: seq<string>, b: seq<string>)
    ensures Fold(st, a + b) == Fold(Fold(st, a), b)
    decreases a
  {
    if a == [] {
      assert a + b == b;
    } else {
      assert (a + b)[1..] == a[1..] + b;
      FoldConcat(Step(st, a[0]), a[1..], b);
    }
  }

  lemma {:induction false} NoiseIsDropped(st: State, noise: seq<string>)
    requires !st.open && forall l <- noise :: !Header(l)
    ensures Fold(st, noise) == st
    decreases noise
  {
    if noise != [] {
      assert Step(st, noise[0]) == st;
      NoiseIsDropped(st, noise[1..]);
    }
  }

  /** No commit takes files: there has been no header, or a blank line since the last one. */
  predicate Closed(lines: seq<string>) {
    forall i :: 0 <= i < |lines| && Header(lines[i]) ==> exists j :: i < j < |lines| && Blank(lines[j])
  }

  lemma {:induction false} OpenMeans(lines: seq<string>)
    ensures Fold(State([], false), lines).open <==> !Closed(lines)
    ensures Fold(State([], false), lines).open ==> Fold(State([], false), lines).commits != []
  {
    if lines != [] {
      var n := |lines| - 1;
      var before, last := lines[..n], lines[n];
      OpenMeans(before);
      assert lines == before + [last];
      FoldConcat(State([], false), before, [last]);
      var st := Fold(State([], false), before);
      assert Fold(st, [last]) == Step(st, last);
      if Blank(last) {
        forall i | 0 <= i < |lines| && Header(lines[i]) ensures exists j :: i < j < |lines| && Blank(lines[j]) {
          assert i < n && Blank(lines[n]);
        }
      } else if !Header(last) {
        assert Closed(lines) <==> Closed(before) by {
          if Closed(before) {
            forall i | 0 <= i < |lines| && Header(lines[i]) ensures exists j :: i < j < |lines| && Blank(lines[j]) {
              assert Header(before[i]);
              var j :| i < j < n && Blank(before[j]);
              assert Blank(lines[j]);
            }
          }
          if Closed(lines) {
            forall i | 0 <= i < n && Header(before[i]) ensures exists j :: i < j < n && Blank(before[j]) {
              assert Header(lines[i]);
              var j :| i < j < |lines| && Blank(lines[j]);
              assert Blank(before[j]);
            }
          }
        }
      }
    }
  }

  /** Lines that are not headers never change the parse before the first header or after a blank
      line; and an open commit would take the first of them, if it is not blank, as a file. */
  lemma NoiseNeverMatters(before: seq<string>, noise: seq<string>, after: seq<string>)
    requires forall l <- noise :: !Header(l)
    ensures Closed(before) ==> Fold(State([], false), before + noise + after) == Fold(State([], false), before + after)
    ensures !Closed(before) && noise != [] && !Blank(noise[0]) ==>
      Fold(State([], false), before + noise[..1]).commits
      == WithFileOf(Fold(State([], false), before).commits, Strip(noise[0]))
  {
    var st := Fold(State([], false), before);
    OpenMeans(before);
    if Closed(before) {
      FoldConcat(State([], false), before + noise, after);
      FoldConcat(State([], false), before, noise);
      FoldConcat(State([], false), before, after);
      NoiseIsDropped(st, noise);
    } else if noise != [] {
      FoldConcat(State([], false), before, noise[..1]);
      assert noise[..1][0] == noise[0] && noise[..1][1..] == [];
      assert Fold(st, noise[..1]) == Step(st, noise[0]);
    }
  }

  function WithFileOf(commits: seq<Commit>, file: string): seq<Commit> {
    if commits == [] then [] else WithFile(commits, file)
  }
}
