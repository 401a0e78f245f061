/** internal/daemon/service.go: does a process's command line belong to this daemon's executable?

    Whether two paths are the same file, and how a relative path is resolved, are parameters. */
module CommandLine {
  import opened Text

  /** The last position at which `pattern` occurs, as `strings.LastIndex`. */
  function LastIndex(s: string, pattern: string, from: nat): (r: Option<nat>)
    requires from <= |s|
    ensures r.Some? ==> r.value <= from && pattern <= s[r.value..]
    ensures forall k | 0 <= k <= from :: pattern <= s[k..] ==> r.Some? && k <= r.value
    decreases from
  {
    if pattern <= s[from..] then Some(from)
    else if from == 0 then None
    else LastIndex(s, pattern, from - 1)
  }

  predicate IsQuote(c: char) {
    c == '"' || c == '\''
  }

  /** Within one pair of quotes. */
  predicate Wrapped(path: string) {
    |path| >= 2 && IsQuote(path[0]) && path[|path| - 1] == path[0]
  }

  function UnquotePath(path: string): Option<string> {
    if Wrapped(path) then Some(path[1..|path| - 1]) else None
  }

  /** What is left before the arguments, trimmed and without its quotes. */
  function PathOf(prefix: string): string {
    var path := TrimSpace(prefix);
    var unquoted := UnquotePath(path);
    if unquoted.Some? then unquoted.value else path
  }

  const RUN_ARG := "__run"
  const START_SUFFIXES: seq<string> := [" start --foreground", " start --foreground=true"]

  function NonEmpty(path: string): Option<string> {
    if path == "" then None else Some(path)
  }

  function CommandExecutableForDaemonRun(commandLine: string): Option<string> {
    var line := TrimSpace(commandLine);
    var idx := LastIndex(line, RUN_ARG, |line|);
    if idx.None? || idx.value == 0 then None
    else if TrimSpace(line[idx.value + |RUN_ARG|..]) != "" then None
    else if !IsSpace(line[idx.value - 1]) then None
    else NonEmpty(PathOf(line[..idx.value]))
  }

  function CommandExecutableForForegroundStart(commandLine: string): Option<string> {
    var line := TrimSpace(commandLine);
    var plain, explicit := START_SUFFIXES[0], START_SUFFIXES[1];
    if HasSuffix(line, plain) then NonEmpty(PathOf(line[..|line| - |plain|]))
    else if HasSuffix(line, explicit) then NonEmpty(PathOf(line[..|line| - |explicit|]))
    else None
  }

  function Candidates(commandLine: string): seq<string> {
    var line := TrimSpace(commandLine);
    (match CommandExecutableForDaemonRun(line) case Some(p) => [p] case None => [])
    + (match CommandExecutableForForegroundStart(line) case Some(p) => [p] case None => [])
  }

  /** The file system's view: two paths name one file; a relative path joined to a directory. */
  datatype Paths = Paths(
    same: (string, string) -> bool,
    isAbs: string -> bool,
    resolve: (string, string) -> string)

  /** `normalizeRelativeCommandPath`. */
  function NormalizeRelativeCommandPath(fs: Paths, commandPath: string, expectedPath: string): Option<string> {
    var c, e := TrimSpace(commandPath), TrimSpace(expectedPath);
    if c == "" || e == "" || fs.isAbs(c) then None else Some(fs.resolve(c, e))
  }

  predicate Denotes(fs: Paths, path: string, expected: string) {
    path == expected || fs.same(path, expected)
  }

  predicate Accepts(fs: Paths, candidate: string, expected: string) {
    || Denotes(fs, candidate, expected)
    || (var n := NormalizeRelativeCommandPath(fs, candidate, expected);
        n.Some? && Denotes(fs, n.value, expected))
  }

  method CommandMatchesExecutable(fs: Paths, commandLine: string, expectedPath: string) returns (ok: bool)
    ensures ok <==>
              && TrimSpace(commandLine) != "" && TrimSpace(expectedPath) != ""
              && exists c | c in Candidates(commandLine) :: Accepts(fs, c, TrimSpace(expectedPath))
  {
    hide TrimSpace, CommandExecutableForDaemonRun, CommandExecutableForForegroundStart,
         NormalizeRelativeCommandPath;
    var line, expected := TrimSpace(commandLine), TrimSpace(expectedPath);
    if line == "" || expected == "" {
      return false;
    }
    var candidates := [];
    var run := CommandExecutableForDaemonRun(line);
    if run.Some? {
      candidates := candidates + [run.value];
    }
    var foreground := CommandExecutableForForegroundStart(line);
    if foreground.Some? {
      candidates := candidates + [foreground.value];
    }
    assert candidates == Candidates(commandLine);
    for i := 0 to |candidates|
      invariant forall k | 0 <= k < i :: !Accepts(fs, candidates[k], expected)
    {
      var path := candidates[i];
      if path == expected || fs.same(path, expected) {
        assert path in Candidates(commandLine) && Accepts(fs, path, expected);
        return true;
      }
      var normalized := NormalizeRelativeCommandPath(fs, path, expected);
      if normalized.Some? {
        if normalized.value == expected || fs.same(normalized.value, expected) {
          assert Accepts(fs, path, expected);
          return true;
        }
      }
    }
    return false;
  }

  // ---- what is recognised ------------------------------------------------------------------

  /** A path that survives the recogniser: not empty, no blanks at its ends, not in quotes. */
  predicate PlainPath(p: string) {
    p != "" && Trimmed(p) && !Wrapped(p)
  }

  lemma PathOfPlain(p: string, blanks: string)
    requires PlainPath(p) && Blank(blanks)
    ensures PathOf(p + blanks) == p
  {
    TrimSpaceOf("", p, blanks);
    assert "" + p + blanks == p + blanks;
  }

  lemma PathOfQuoted(p: string, quote: char, blanks: string)
    requires IsQuote(quote) && Blank(blanks)
    ensures PathOf([quote] + p + [quote] + blanks) == p
  {
    var q := [quote] + p + [quote];
    TrimSpaceOf("", q, blanks);
    assert "" + q + blanks == q + blanks;
    assert q[1..|q| - 1] == p;
  }

  /** The argument is found behind any prefix. */
  lemma LastIndexOfSuffix(prefix: string)
    ensures var line := prefix + RUN_ARG; LastIndex(line, RUN_ARG, |line|) == Some(|prefix|)
  {
    var line := prefix + RUN_ARG;
    assert line[|prefix|..] == RUN_ARG;
    var r := LastIndex(line, RUN_ARG, |line|);
    assert |line[r.value..]| >= |RUN_ARG|;
  }

  lemma RunLine(path: string)
    requires path != "" && !IsSpace(path[0])
    ensures var line := path + " " + RUN_ARG;
      && TrimSpace(line) == line
      && CommandExecutableForDaemonRun(line) == NonEmpty(PathOf(path + " "))
      && CommandExecutableForForegroundStart(line) == None
  {
    var line := path + " " + RUN_ARG;
    TrimSpaceOfTrimmed(line);
    LastIndexOfSuffix(path + " ");
    assert line[|path| + 1 + |RUN_ARG|..] == "";
    TrimSpaceOfTrimmed("");
    assert line[..|path| + 1] == path + " ";
    assert line[|line| - 1] == 'n';
    assert START_SUFFIXES[0][|START_SUFFIXES[0]| - 1] == 'd' && START_SUFFIXES[1][|START_SUFFIXES[1]| - 1] == 'e';
  }

  lemma StartLine(path: string, i: nat)
    requires path != "" && !IsSpace(path[0]) && i < 2
    ensures var line := path + START_SUFFIXES[i];
      && TrimSpace(line) == line
      && CommandExecutableForDaemonRun(line) == None
      && CommandExecutableForForegroundStart(line) == NonEmpty(PathOf(path))
  {
    var suffix := START_SUFFIXES[i];
    var line := path + suffix;
    TrimSpaceOfTrimmed(line);
    assert line[..|path|] == path && line[|path|..] == suffix;
    assert line[|line| - 1] == suffix[|suffix| - 1];
    if i == 1 {
      assert START_SUFFIXES[0][|START_SUFFIXES[0]| - 1] == 'd';
    }
    NoRunArgument(line, suffix[|suffix| - 1]);
  }

  /** A line that does not end in the argument's last letter has something behind the argument. */
  lemma NoRunArgument(line: string, last: char)
    requires line != "" && line[|line| - 1] == last && last != 'n' && !IsSpace(last)
    requires TrimSpace(line) == line
    ensures CommandExecutableForDaemonRun(line) == None
  {
    var idx := LastIndex(line, RUN_ARG, |line|);
    if idx.Some? {
      var rest := line[idx.value + |RUN_ARG|..];
      var pre, post := TrimSpaceSplit(rest);
      assert line[idx.value + 4] == line[idx.value..][4] == 'n';
      assert rest != "";
      assert rest[|rest| - 1] == last;
    }
  }

  /** Every plain path, bare or in quotes of either kind, is the one candidate of the three command
      lines a daemon is started with. */
  lemma StartedDaemonsAreRecognised(p: string, quote: char)
    requires PlainPath(p) && IsQuote(quote)
    ensures forall path | path in {p, [quote] + p + [quote]} ::
              && Candidates(path + " " + RUN_ARG) == [p]
              && Candidates(path + START_SUFFIXES[0]) == [p]
              && Candidates(path + START_SUFFIXES[1]) == [p]
  {
    var quoted := [quote] + p + [quote];
    PathOfPlain(p, " ");
    PathOfPlain(p, "");
    PathOfQuoted(p, quote, " ");
    PathOfQuoted(p, quote, "");
    assert p + "" == p && quoted + "" == quoted;
    hide CommandExecutableForDaemonRun, CommandExecutableForForegroundStart, PathOf;
    forall path | path in {p, quoted}
      ensures Candidates(path + " " + RUN_ARG) == [p]
      ensures Candidates(path + START_SUFFIXES[0]) == [p] && Candidates(path + START_SUFFIXES[1]) == [p]
    {
      RunLine(path);
      StartLine(path, 0);
      StartLine(path, 1);
    }
  }

  lemma AcceptedRunLine(line: string)
    requires TrimSpace(line) == line && CommandExecutableForDaemonRun(line).Some?
    ensures exists prefix ::
              && line == prefix + RUN_ARG && prefix != "" && IsSpace(prefix[|prefix| - 1])
              && CommandExecutableForDaemonRun(line) == Some(PathOf(prefix))
    ensures CommandExecutableForForegroundStart(line) == None
  {
    hide PathOf, TrimSpace, IsSpace, LastIndex, HasSuffix;
    var idx := LastIndex(line, RUN_ARG, |line|);
    assert idx.Some? && idx.value > 0;
    var prefix := line[..idx.value];
    var rest := line[idx.value + |RUN_ARG|..];
    NothingBehind(line, rest);
    assert line == prefix + RUN_ARG + rest == prefix + RUN_ARG;
    assert line[|line| - 1] == RUN_ARG[4] == 'n';
    SuffixesEndElsewhere(line);
  }

  /** The condition is exact: a path that is empty, has blanks at an end, or is itself in quotes is
      never its own candidate. */
  lemma RecognisedIffPlain(p: string)
    ensures Candidates(p + " " + RUN_ARG) == [p] <==> PlainPath(p)
  {
    hide Candidates, PathOf, TrimSpace;
    if PlainPath(p) {
      StartedDaemonsAreRecognised(p, '"');
    } else {
      var pre, post := TrimSpaceSplit(p);
      if TrimSpace(p) == "" {
        BlankPath(p, pre, post);
      } else {
        CandidateOfLine(p, pre, TrimSpace(p), post);
        if PathOf(TrimSpace(p) + post + " ") == p {
          OwnPathIsPlain(p, pre, TrimSpace(p), post);
        }
      }
    }
  }

  lemma BlankPath(p: string, pre: string, post: string)
    requires p == pre + post && Blank(pre) && Blank(post)
    ensures Candidates(p + " " + RUN_ARG) == []
  {
    TrimSpaceOf(p + " ", RUN_ARG, "");
    assert p + " " + RUN_ARG == (p + " ") + RUN_ARG + "";
    LastIndexOfSuffix("");
    assert "" + RUN_ARG == RUN_ARG;
    TrimSpaceOfTrimmed(RUN_ARG);
    SuffixesEndElsewhere(RUN_ARG);
  }

  lemma CandidateOfLine(p: string, pre: string, core: string, post: string)
    requires p == pre + core + post && Blank(pre) && Blank(post) && Trimmed(core) && core != ""
    ensures var path := PathOf(core + post + " ");
      Candidates(p + " " + RUN_ARG) == if path == "" then [] else [path]
  {
    hide PathOf, TrimSpace, CommandExecutableForDaemonRun, CommandExecutableForForegroundStart;
    var line := core + post + " " + RUN_ARG;
    RunLine(core + post);
    TrimSpaceOf(pre, line, "");
    assert pre + line + "" == p + " " + RUN_ARG;
  }

  /** Trimming and unquoting only shorten. */
  lemma OwnPathIsPlain(p: string, pre: string, core: string, post: string)
    requires p == pre + core + post && Blank(pre) && Blank(post) && Trimmed(core) && core != ""
    requires PathOf(core + post + " ") == p
    ensures PlainPath(p)
  {
    TrimSpaceOf("", core, post + " ");
    assert "" + core + (post + " ") == core + post + " ";
    hide TrimSpace;
    assert |p| == |pre| + |core| + |post| && |PathOf(core + post + " ")| <= |core|;
    assert p == core;
  }

  /** A trimmed line has no blank tail. */
  lemma NothingBehind(line: string, rest: string)
    requires TrimSpace(line) == line && |rest| < |line| && line[|line| - |rest|..] == rest
    requires TrimSpace(rest) == ""
    ensures rest == ""
  {
    assert rest != "" ==> rest[|rest| - 1] == line[|line| - 1];
    var a, b := TrimSpaceSplit(line);
    var pre, post := TrimSpaceSplit(rest);
    assert rest == pre + post;
  }

  lemma SuffixesEndElsewhere(line: string)
    requires line != "" && line[|line| - 1] == 'n'
    ensures !HasSuffix(line, START_SUFFIXES[0]) && !HasSuffix(line, START_SUFFIXES[1])
  {
  }

  lemma AcceptedStartLine(line: string)
    requires TrimSpace(line) == line && CommandExecutableForForegroundStart(line).Some?
    ensures exists prefix ::
              && (line == prefix + START_SUFFIXES[0] || line == prefix + START_SUFFIXES[1])
              && CommandExecutableForForegroundStart(line) == Some(PathOf(prefix))
  {
  }

  /** Acceptance implies one of the argument lists, in only one way: there is at most one candidate,
      and it is the path in front of the arguments. */
  lemma AcceptedLinesAreLaunches(commandLine: string)
    ensures var line, cs := TrimSpace(commandLine), Candidates(commandLine);
      && |cs| <= 1
      && (cs != [] ==> exists prefix ::
            && (|| (line == prefix + RUN_ARG && prefix != "" && IsSpace(prefix[|prefix| - 1]))
                || line == prefix + START_SUFFIXES[0]
                || line == prefix + START_SUFFIXES[1])
            && cs == [PathOf(prefix)])
  {
    var line := TrimSpace(commandLine);
    var pre, post := TrimSpaceSplit(commandLine);
    TrimSpaceOfTrimmed(line);
    hide TrimSpace, PathOf, CommandExecutableForDaemonRun, CommandExecutableForForegroundStart;
    if CommandExecutableForDaemonRun(line).Some? {
      AcceptedRunLine(line);
    } else if CommandExecutableForForegroundStart(line).Some? {
      AcceptedStartLine(line);
    }
  }

  /** A daemon launched with a relative path is recognised exactly when the path, as it is or resolved against
      the directory of the expected executable, names the expected file; an absolute path is never
      resolved. */
  lemma LaunchedPathIsAccepted(fs: Paths, p: string, expected: string)
    requires PlainPath(p) && expected != "" && Trimmed(expected)
    ensures forall line | line in {p + " " + RUN_ARG, p + START_SUFFIXES[0], p + START_SUFFIXES[1]} ::
              (exists c | c in Candidates(line) :: Accepts(fs, c, expected)) <==>
              || p == expected || fs.same(p, expected)
              || (!fs.isAbs(p) && (fs.resolve(p, expected) == expected || fs.same(fs.resolve(p, expected), expected)))
  {
    StartedDaemonsAreRecognised(p, '"');
    TrimSpaceOfTrimmed(p);
    TrimSpaceOfTrimmed(expected);
    hide Candidates, TrimSpace;
    assert Accepts(fs, p, expected) <==>
           || p == expected || fs.same(p, expected)
           || (!fs.isAbs(p) && (fs.resolve(p, expected) == expected || fs.same(fs.resolve(p, expected), expected)));
    forall line | line in {p + " " + RUN_ARG, p + START_SUFFIXES[0], p + START_SUFFIXES[1]}
      ensures Candidates(line) == [p]
    {
    }
    assert p in [p];
  }

  // ---- quoted executables ------------------------------------------------------------------

  /** What the scan of `quotedExecutablePath` makes of the rest of a line. */
  function Scan(quote: char, rest: string, escaped: bool, built: string): Option<string> {
    if rest == "" then None
    else
      var ch := rest[0];
      if quote == '"' && ch == '\\' && !escaped then Scan(quote, rest[1..], true, built)
      else if escaped then Scan(quote, rest[1..], false, built + [ch])
      else if ch == quote then NonEmpty(built)
      else Scan(quote, rest[1..], false, built + [ch])
  }

  method QuotedExecutablePath(commandLine: string) returns (r: Option<string>)
    requires commandLine != ""
    ensures r == Scan(commandLine[0], commandLine[1..], false, "")
  {
    var quote := commandLine[0];
    var builder := "";
    var escaped := false;
    for i := 1 to |commandLine|
      invariant Scan(quote, commandLine[i..], escaped, builder) == Scan(quote, commandLine[1..], false, "")
    {
      var ch := commandLine[i];
      assert commandLine[i..][0] == ch && commandLine[i..][1..] == commandLine[i + 1..];
      if quote == '"' && ch == '\\' && !escaped {
        escaped := true;
        continue;
      }
      if escaped {
        builder := builder + [ch];
        escaped := false;
        continue;
      }
      if ch == quote {
        return if |builder| == 0 then None else Some(builder);
      }
      builder := builder + [ch];
    }
    return None;
  }

  /** Backslashes in front of double quotes and backslashes. */
  function Escape(p: string): string {
    if p == "" then ""
    else (if p[0] == '"' || p[0] == '\\' then ['\\', p[0]] else [p[0]]) + Escape(p[1..])
  }

  lemma {:induction false} ScanOfEscaped(p: string, tail: string, built: string)
    ensures Scan('"', Escape(p) + ['"'] + tail, false, built) == NonEmpty(built + p)
  {
    if p == "" {
      assert Escape(p) + ['"'] + tail == ['"'] + tail;
      assert built + p == built;
    } else {
      var more := Escape(p[1..]) + ['"'] + tail;
      ScanOfEscaped(p[1..], tail, built + [p[0]]);
      assert built + [p[0]] + p[1..] == built + p;
      if p[0] == '"' || p[0] == '\\' {
        assert Escape(p) + ['"'] + tail == ['\\', p[0]] + more;
        assert (['\\', p[0]] + more)[1..] == [p[0]] + more;
        assert ([p[0]] + more)[1..] == more;
      } else {
        assert Escape(p) + ['"'] + tail == [p[0]] + more;
        assert ([p[0]] + more)[1..] == more;
      }
    }
  }

  lemma {:induction false} ScanOfSingleQuoted(p: string, tail: string, built: string)
    requires '\'' !in p
    ensures Scan('\'', p + ['\''] + tail, false, built) == NonEmpty(built + p)
  {
    if p == "" {
      assert p + ['\''] + tail == ['\''] + tail;
      assert built + p == built;
    } else {
      var more := p[1..] + ['\''] + tail;
      ScanOfSingleQuoted(p[1..], tail, built + [p[0]]);
      assert built + [p[0]] + p[1..] == built + p;
      assert p + ['\''] + tail == [p[0]] + more;
      assert ([p[0]] + more)[1..] == more;
    }
  }

  /** The scan undoes the escaping, for every path and whatever follows the closing quote; single
      quotes keep every path without a single quote as it is. */
  lemma QuotingRoundTrip(p: string, tail: string)
    ensures Scan('"', Escape(p) + ['"'] + tail, false, "") == NonEmpty(p)
    ensures '\'' !in p ==> Scan('\'', p + ['\''] + tail, false, "") == NonEmpty(p)
  {
    ScanOfEscaped(p, tail, "");
    assert "" + p == p;
    if '\'' !in p {
      ScanOfSingleQuoted(p, tail, "");
    }
  }

  /** Without a closing quote there is no path. */
  lemma {:induction false} UnterminatedIsNothing(quote: char, rest: string, escaped: bool, built: string)
    requires quote !in rest
    ensures Scan(quote, rest, escaped, built) == None
    decreases |rest|
  {
    if rest != "" {
      UnterminatedIsNothing(quote, rest[1..], quote == '"' && rest[0] == '\\' && !escaped,
                            if quote == '"' && rest[0] == '\\' && !escaped then built else built + [rest[0]]);
    }
  }
}
