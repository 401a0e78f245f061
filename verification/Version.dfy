/** internal/upgrade/version.go: the order that decides whether a release is newer. */
module Version {
  import opened Text

  function Normalize(version: string): string {
    var v := TrimSpace(version);
    if HasPrefix(v, "v") then v[1..] else v
  }

  predicate AllNumbers(parts: seq<string>) {
    forall i | 0 <= i < |parts| :: Atoi(parts[i]).Some?
  }

  /** The numbers between the dots, or [] when one of them is not a number. */
  function Parse(version: string): seq<int> {
    var parts := Split(version, '.');
    if AllNumbers(parts)
    then seq(|parts|, i requires 0 <= i < |parts| && Atoi(parts[i]).Some? => Atoi(parts[i]).value)
    else []
  }

  predicate Parseable(version: string) {
    Parse(Normalize(version)) != []
  }

  /** The i-th number of a version, zero where it has none. */
  function Component(version: string, i: nat): int {
    var parts := Parse(Normalize(version));
    if i < |parts| then parts[i] else 0
  }

  /** Lexicographic order on the first three components, between versions that parse. */
  predicate Newer(current: string, latest: string) {
    && Parseable(current) && Parseable(latest)
    && (|| Component(current, 0) < Component(latest, 0)
        || (Component(current, 0) == Component(latest, 0)
            && (|| Component(current, 1) < Component(latest, 1)
                || (Component(current, 1) == Component(latest, 1)
                    && Component(current, 2) < Component(latest, 2)))))
  }

  method ParseVersion(version: string) returns (out: seq<int>)
    ensures out == Parse(version)
  {
    var parts := Split(version, '.');
    out := [];
    for k := 0 to |parts|
      invariant |out| == k
      invariant forall i | 0 <= i < k :: Atoi(parts[i]) == Some(out[i])
    {
      var n := Atoi(parts[k]);
      if n.None? {
        return [];
      }
      out := out + [n.value];
    }
  }

  method IsNewerVersion(current: string, latest: string) returns (newer: bool)
    ensures newer <==> Newer(current, latest)
  {
    hide Parse, Normalize;
    var currentParts := ParseVersion(Normalize(current));
    var latestParts := ParseVersion(Normalize(latest));
    if |currentParts| == 0 || |latestParts| == 0 {
      return false;
    }
    for i := 0 to 3
      invariant i > 0 ==> Component(current, 0) == Component(latest, 0)
      invariant i > 1 ==> Component(current, 1) == Component(latest, 1)
      invariant i > 2 ==> Component(current, 2) == Component(latest, 2)
    {
      var cur, lat := 0, 0;
      if i < |currentParts| {
        cur := currentParts[i];
      }
      if i < |latestParts| {
        lat := latestParts[i];
      }
      assert cur == Component(current, i) && lat == Component(latest, i);
      if lat > cur {
        return true;
      }
      if lat < cur {
        return false;
      }
    }
    return false;
  }

  /** Neither is above the other. */
  predicate Tied(a: string, b: string) {
    !Newer(a, b) && !Newer(b, a)
  }

  /** `Newer` is a strict weak order on the versions that parse: it is irreflexive, asymmetric and
      transitive, and being tied is transitive. */
  lemma NewerIsStrictWeakOrder(a: string, b: string, c: string)
    ensures !Newer(a, a)
    ensures Newer(a, b) ==> Parseable(a) && Parseable(b)
    ensures Newer(a, b) ==> !Newer(b, a)
    ensures Newer(a, b) && Newer(b, c) ==> Newer(a, c)
    ensures Parseable(b) && Newer(a, c) ==> Newer(a, b) || Newer(b, c)
    ensures Parseable(b) && Tied(a, b) && Tied(b, c) ==> Tied(a, c)
  {
  }

  lemma OneDigitVersion(c: char)
    requires '0' <= c <= '9'
    ensures Parseable([c]) && Component([c], 0) == c as int - '0' as int
  {
    TrimSpaceOfTrimmed([c]);
    assert [c][1..] == "" && Split("", '.') == [""] && [c] + "" == [c];
    assert Split([c], '.') == [[c]];
    assert [c][..0] == "" && Decimal([c]) == c as int - '0' as int;
  }

  /** A version that does not parse is tied with every version, so ties carry over through `b`
      exactly when `b` parses. */
  lemma TiesCarryOverIff(b: string)
    ensures Parseable(b) <==> forall a, c :: Tied(a, b) && Tied(b, c) ==> Tied(a, c)
  {
    if Parseable(b) {
      forall a, c | Tied(a, b) && Tied(b, c)
        ensures Tied(a, c)
      {
        NewerIsStrictWeakOrder(a, b, c);
      }
    } else {
      OneDigitVersion('1');
      OneDigitVersion('2');
      assert Tied("1", b) && Tied(b, "2") && !Tied("1", "2");
    }
  }

  /** The order sees a version only through its normal form. */
  lemma NewerOfNormalForms(a: string, a': string, b: string, b': string)
    requires Normalize(a) == Normalize(a') && Normalize(b) == Normalize(b')
    ensures Newer(a, b) == Newer(a', b') && Parseable(a) == Parseable(a')
  {
  }

  // ---- the version the upgrade command claims to have ----------------------------------------

  const ZERO_VERSION := "0.0.0"

  /** `normalizeUpgradeCurrentVersion` of internal/cli/commands_upgrade.go: anything but one to three
      numbers counts as 0.0.0. */
  function NormalizeUpgradeCurrentVersion(current: string): string {
    var normalized := TrimSpace(if HasPrefix(current, "v") then current[1..] else current);
    var parts := Split(normalized, '.');
    if normalized != "" && |parts| <= 3 && "" !in parts && AllNumbers(parts)
    then normalized else ZERO_VERSION
  }

  /** The first and last characters of a text are those of its first and last piece. */
  lemma SplitBegins(s: string, sep: char)
    requires s != ""
    ensures var first := Split(s, sep)[0];
      if s[0] == sep then first == "" else first != "" && first[0] == s[0]
  {
  }

  lemma {:induction false} SplitEnds(s: string, sep: char)
    requires s != ""
    ensures var parts := Split(s, sep);
      var last := parts[|parts| - 1];
      if s[|s| - 1] == sep then last == "" else last != "" && last[|last| - 1] == s[|s| - 1]
  {
    var parts, rest := Split(s, sep), Split(s[1..], sep);
    if |s| == 1 {
      EmptySplit(sep);
      assert s[1..] == "";
    } else {
      SplitEnds(s[1..], sep);
      assert s[1..][|s| - 2] == s[|s| - 1];
      assert |rest| == 1 ==> parts[|parts| - 1] == (if s[0] == sep then rest[0] else [s[0]] + rest[0]);
      assert |rest| > 1 ==> parts[|parts| - 1] == rest[|rest| - 1];
    }
  }

  lemma NumeralEnds(part: string)
    requires Atoi(part).Some?
    ensures part != "" && '0' <= part[|part| - 1] <= '9'
    ensures '0' <= part[0] <= '9' || part[0] == '-' || part[0] == '+'
  {
  }

  lemma NumbersEndInDigits(s: string)
    requires Parse(s) != []
    ensures s != ""
    ensures '0' <= s[|s| - 1] <= '9'
    ensures '0' <= s[0] <= '9' || s[0] == '-' || s[0] == '+'
  {
    hide Atoi, Parse, Split;
    PartsAreNumbers(s);
    var parts := Split(s, '.');
    NumeralEnds(parts[0]);
    NumeralEnds(parts[|parts| - 1]);
    EmptySplit('.');
    assert s != "";
    SplitBegins(s, '.');
    SplitEnds(s, '.');
  }

  lemma PartsAreNumbers(s: string)
    requires Parse(s) != []
    ensures var parts := Split(s, '.'); Atoi(parts[0]).Some? && Atoi(parts[|parts| - 1]).Some?
  {
    hide Atoi, Split;
  }

  lemma EmptySplit(sep: char)
    ensures Split("", sep) == [""]
  {
  }

  /** Numbers between dots have no blanks around them and no leading letter: they are their own
      normal form. */
  lemma NormalOfNumbers(s: string)
    requires Parse(s) != []
    ensures s != "" && Trimmed(s) && Normalize(s) == s
  {
    hide Parse, TrimSpace;
    NumbersEndInDigits(s);
    TrimSpaceOfTrimmed(s);
  }

  /** The command always compares one to three numbers: its version parses whatever the build says. */
  lemma CommandVersionParses(current: string)
    ensures var v := NormalizeUpgradeCurrentVersion(current); Parseable(v) && |Parse(Normalize(v))| <= 3
  {
    hide TrimSpace, Decimal;
    var v := NormalizeUpgradeCurrentVersion(current);
    ZeroVersionParses();
    if v != ZERO_VERSION {
      assert |Parse(v)| == |Split(v, '.')| <= 3;
    }
    NormalOfNumbers(v);
  }

  lemma ZeroVersionParses()
    ensures Split(ZERO_VERSION, '.') == ["0", "0", "0"] && Atoi("0") == Some(0)
    ensures Parse(ZERO_VERSION) == [0, 0, 0]
  {
    assert Split("", '.') == [""] && "0" + "" == "0" && "0"[1..] == "";
    assert Split("0", '.') == ["0"];
    assert ".0"[1..] == "0" && Split(".0", '.') == ["", "0"];
    assert "0.0"[1..] == ".0" && Split("0.0", '.') == ["0", "0"];
    assert ".0.0"[1..] == "0.0" && Split(".0.0", '.') == ["", "0", "0"];
    assert ZERO_VERSION[1..] == ".0.0";
    assert "0"[..0] == "" && Decimal("0") == 0;
  }

  /** The command reads the version as the daemon does: one to three numbers, and no blank in front of
      a leading v. */
  predicate Understood(current: string) {
    && Parseable(current) && |Parse(Normalize(current))| <= 3
    && (HasPrefix(TrimSpace(current), "v") ==> HasPrefix(current, "v"))
  }

  /** What the command strips and trims, in the order in which it does. */
  function Stripped(current: string): string {
    TrimSpace(if HasPrefix(current, "v") then current[1..] else current)
  }

  /** Stripping before trimming only matters to a v behind blanks. */
  lemma StrippedOf(current: string)
    requires Parseable(current)
    ensures if HasPrefix(TrimSpace(current), "v") ==> HasPrefix(current, "v")
            then Stripped(current) == Normalize(current)
            else Stripped(current) != "" && Stripped(current)[0] == 'v'
  {
    hide Parse, TrimSpace;
    var pre, post := TrimSpaceSplit(current);
    var s := Normalize(current);
    NormalOfNumbers(s);
    if HasPrefix(current, "v") {
      assert current[0] == 'v' && pre == "" && TrimSpace(current)[0] == 'v';
      assert current[1..] == "" + s + post;
      TrimSpaceOf("", s, post);
    }
  }

  lemma NoLeadingV(s: string)
    requires s != "" && s[0] == 'v'
    ensures !AllNumbers(Split(s, '.'))
  {
    hide Atoi, Split;
    SplitBegins(s, '.');
    var part := Split(s, '.')[0];
    if Atoi(part).Some? {
      NumeralEnds(part);
      assert false;
    }
  }

  lemma CommandVersionOf(current: string)
    requires Parseable(current)
    ensures NormalizeUpgradeCurrentVersion(current)
            == if Understood(current) then Normalize(current) else ZERO_VERSION
  {
    StrippedOf(current);
    var s := Stripped(current);
    if s == Normalize(current) {
      NumbersHaveNoGaps(s);
    }
    if s != "" && s[0] == 'v' {
      NoLeadingV(s);
      NormalOfNumbers(Normalize(current));
    }
    hide TrimSpace, Atoi, Split;
  }

  lemma NumbersHaveNoGaps(s: string)
    requires Parse(s) != []
    ensures s != "" && AllNumbers(Split(s, '.')) && "" !in Split(s, '.')
    ensures |Parse(s)| == |Split(s, '.')|
  {
    NumbersEndInDigits(s);
    assert Atoi("").None?;
    hide Atoi, Split;
  }

  /** The command takes numbers out of any blanks, also behind a leading v. */
  lemma CommandVersionOfText(pre: string, s: string, post: string)
    requires Blank(pre) && Blank(post) && Parse(s) != [] && |Parse(s)| <= 3
    ensures NormalizeUpgradeCurrentVersion("v" + pre + s + post) == s
    ensures NormalizeUpgradeCurrentVersion(pre + s + post) == s
  {
    hide Parse, TrimSpace;
    NormalOfNumbers(s);
    NumbersEndInDigits(s);
    NumbersHaveNoGaps(s);
    TrimSpaceOf(pre, s, post);
    var text := pre + s + post;
    assert ("v" + pre + s + post)[1..] == text;
    assert text[0] == if pre == "" then s[0] else pre[0];
  }

  // ---- texts of versions -------------------------------------------------------------------

  /** The decimal digits of a number. */
  function Digits(n: nat): (s: string)
    ensures s != "" && AllDigits(s)
  {
    (if n < 10 then "" else Digits(n / 10)) + [(n % 10 + '0' as int) as char]
  }

  lemma {:induction false} DecimalOfDigits(n: nat)
    ensures Decimal(Digits(n)) == n
  {
    var last := [(n % 10 + '0' as int) as char];
    if n < 10 {
      assert Digits(n) == last && last[..0] == "";
    } else {
      DecimalOfDigits(n / 10);
      assert (Digits(n / 10) + last)[..|Digits(n / 10)|] == Digits(n / 10);
    }
  }

  lemma AtoiOfDigits(n: nat)
    requires n <= MAX_INT64
    ensures Atoi(Digits(n)) == Some(n)
  {
    DecimalOfDigits(n);
    assert '0' <= Digits(n)[0] <= '9';
  }

  lemma {:induction false} SplitAtFirst(a: string, rest: string, sep: char)
    requires sep !in a
    ensures Split(a, sep) == [a] && Split(a + [sep] + rest, sep) == [a] + Split(rest, sep)
  {
    EmptySplit(sep);
    var all := a + [sep] + rest;
    if a == "" {
      assert all == [sep] + rest && all[1..] == rest;
    } else {
      SplitAtFirst(a[1..], rest, sep);
      assert all[1..] == a[1..] + [sep] + rest;
      assert [a[0]] + a[1..] == a;
    }
  }

  function VersionText(a: nat, b: nat, c: nat): string {
    Digits(a) + "." + (Digits(b) + "." + Digits(c))
  }

  lemma OneNumber(x: string, a: int)
    requires '.' !in x && Atoi(x) == Some(a)
    ensures Parse(x) == [a]
  {
    hide Atoi, Split;
    SplitAtFirst(x, "", '.');
  }

  lemma NumberInFront(x: string, rest: string, a: int)
    requires '.' !in x && Atoi(x) == Some(a) && Parse(rest) != []
    ensures Parse(x + "." + rest) == [a] + Parse(rest)
  {
    hide Atoi, Split;
    SplitAtFirst(x, rest, '.');
    var parts, more := Split(x + "." + rest, '.'), Split(rest, '.');
    assert parts == [x] + more && AllNumbers(more);
    assert forall i | 0 < i < |parts| :: parts[i] == more[i - 1];
    assert AllNumbers(parts);
  }

  lemma ParseVersionText(a: nat, b: nat, c: nat)
    requires a <= MAX_INT64 && b <= MAX_INT64 && c <= MAX_INT64
    ensures Parse(VersionText(a, b, c)) == [a, b, c]
  {
    hide Atoi, Parse, Digits, Decimal;
    AtoiOfDigits(a);
    AtoiOfDigits(b);
    AtoiOfDigits(c);
    OneNumber(Digits(c), c);
    NumberInFront(Digits(b), Digits(c), b);
    NumberInFront(Digits(a), Digits(b) + "." + Digits(c), a);
  }

  /** Every three numbers of the 64-bit range are those of some version. */
  lemma VersionTextParses(a: nat, b: nat, c: nat)
    requires a <= MAX_INT64 && b <= MAX_INT64 && c <= MAX_INT64
    ensures var v := VersionText(a, b, c);
      && Parseable(v)
      && Component(v, 0) == a && Component(v, 1) == b && Component(v, 2) == c
  {
    hide Parse, VersionText;
    ParseVersionText(a, b, c);
    NormalOfNumbers(VersionText(a, b, c));
  }

  /** What the order means on versions as they are written: three numbers compare from the left, and a
      `v` in front and blanks around make no difference. */
  lemma NewerOfTexts(a: nat, b: nat, c: nat, a': nat, b': nat, c': nat, pre: string, post: string)
    requires a <= MAX_INT64 && b <= MAX_INT64 && c <= MAX_INT64
    requires a' <= MAX_INT64 && b' <= MAX_INT64 && c' <= MAX_INT64
    requires Blank(pre) && Blank(post)
    ensures Newer(VersionText(a, b, c), pre + "v" + VersionText(a', b', c') + post)
            <==> a < a' || (a == a' && (b < b' || (b == b' && c < c')))
  {
    hide Parse, VersionText, Component, Normalize, TrimSpace, Parseable;
    VersionTextParses(a, b, c);
    VersionTextParses(a', b', c');
    var v := VersionText(a', b', c');
    ParseVersionText(a', b', c');
    NormalOfNumbers(v);
    NormalOfText(pre, v, post);
    var spelt := pre + "v" + v + post;
    SameComponents(v, spelt);
  }

  lemma SameComponents(a: string, b: string)
    requires Normalize(a) == Normalize(b)
    ensures Parseable(a) == Parseable(b) && forall i: nat :: Component(a, i) == Component(b, i)
  {
  }

  /** Blanks go from both ends and then one leading `v`, and no more than one. */
  lemma NormalOfText(pre: string, s: string, post: string)
    requires Blank(pre) && Blank(post) && Trimmed(s)
    ensures s != "" ==> Normalize(pre + "v" + s + post) == s
    ensures Normalize(pre + s + post) == if HasPrefix(s, "v") then s[1..] else s
  {
    TrimSpaceOf(pre, s, post);
    if s != "" {
      assert Trimmed("v" + s);
      TrimSpaceOf(pre, "v" + s, post);
      assert pre + ("v" + s) + post == pre + "v" + s + post;
    }
  }

  /** Numbers that are not there count as zero, and those behind the third do not count. */
  lemma OtherLengths(a: nat, b: nat, c: nat, more: string)
    requires a <= MAX_INT64 && b <= MAX_INT64 && c <= MAX_INT64 && Parse(more) != []
    ensures Parseable(Digits(a)) && Parseable(Digits(a) + "." + Digits(b))
    ensures Tied(Digits(a), VersionText(a, 0, 0))
    ensures Tied(Digits(a) + "." + Digits(b), VersionText(a, b, 0))
    ensures var long := Digits(a) + "." + (Digits(b) + "." + (Digits(c) + "." + more));
      Parseable(long) && Tied(long, VersionText(a, b, c))
  {
    hide Parse, Digits, Atoi, Decimal, Normalize;
    AtoiOfDigits(a);
    AtoiOfDigits(b);
    AtoiOfDigits(c);
    var one, two := Digits(a), Digits(a) + "." + Digits(b);
    OneNumber(Digits(a), a);
    OneNumber(Digits(b), b);
    NumberInFront(Digits(a), Digits(b), a);
    NumberInFront(Digits(c), more, c);
    NumberInFront(Digits(b), Digits(c) + "." + more, b);
    NumberInFront(Digits(a), Digits(b) + "." + (Digits(c) + "." + more), a);
    var long := Digits(a) + "." + (Digits(b) + "." + (Digits(c) + "." + more));
    hide VersionText;
    ParseVersionText(a, 0, 0);
    ParseVersionText(a, b, 0);
    ParseVersionText(a, b, c);
    TiedWhenAlike(one, VersionText(a, 0, 0));
    TiedWhenAlike(two, VersionText(a, b, 0));
    TiedWhenAlike(long, VersionText(a, b, c));
  }

  lemma TiedWhenAlike(s: string, t: string)
    requires Parse(s) != [] && Parse(t) != []
    requires forall i | 0 <= i < 3 ::
               (if i < |Parse(s)| then Parse(s)[i] else 0) == (if i < |Parse(t)| then Parse(t)[i] else 0)
    ensures Parseable(s) && Tied(s, t)
  {
    hide Parse;
    NormalOfNumbers(s);
    NormalOfNumbers(t);
    assert forall i | 0 <= i < 3 :: Component(s, i) == Component(t, i);
  }

  /** Integers in decimal notation: a sign is allowed, and the range is that of 64 bits. */
  lemma AtoiOfText(n: nat)
    ensures Atoi(Digits(n)) == (if n <= MAX_INT64 then Some(n) else None)
    ensures Atoi("+" + Digits(n)) == (if n <= MAX_INT64 then Some(n) else None)
    ensures Atoi("-" + Digits(n)) == (if n <= MAX_INT64 + 1 then Some(0 - n) else None)
  {
    DecimalOfDigits(n);
    assert '0' <= Digits(n)[0] <= '9';
    assert ("+" + Digits(n))[1..] == Digits(n) && ("-" + Digits(n))[1..] == Digits(n);
    hide Digits, Decimal;
  }

  lemma AtoiOfOther(s: string)
    requires s == "" || (|s| == 1 && !('0' <= s[0] <= '9')) || exists i | 0 < i < |s| :: !('0' <= s[i] <= '9')
    ensures Atoi(s) == None
  {
    if |s| > 1 {
      var i :| 0 < i < |s| && !('0' <= s[i] <= '9');
      assert s[1..][i - 1] == s[i];
    }
  }

  /** No release can be above it. */
  predicate AtTop(version: string) {
    Component(version, 0) == Component(version, 1) == Component(version, 2) == MAX_INT64
  }

  lemma ComponentBound(version: string, i: nat)
    ensures Component(version, i) <= MAX_INT64
  {
    hide Normalize;
    var s := Normalize(version);
    if i < |Parse(s)| {
      assert Atoi(Split(s, '.')[i]).Some?;
    }
  }

  /** A version that parses has a release above it exactly when one of its three numbers can grow. */
  lemma SomethingIsNewerIff(version: string)
    requires Parseable(version)
    ensures (exists release :: Newer(version, release)) <==> !AtTop(version)
  {
    var top := VersionText(MAX_INT64, MAX_INT64, MAX_INT64);
    VersionTextParses(MAX_INT64, MAX_INT64, MAX_INT64);
    hide Parseable, Component, VersionText;
    forall i | 0 <= i < 3
      ensures Component(version, i) <= MAX_INT64
    {
      ComponentBound(version, i);
    }
    assert !AtTop(version) ==> Newer(version, top);
    forall release | Newer(version, release)
      ensures !AtTop(version)
    {
      ComponentBound(release, 0);
      ComponentBound(release, 1);
      ComponentBound(release, 2);
    }
  }

  /** For every version the build may say: command and daemon find the same releases newer exactly
      when the command understands the version or it is worth 0.0.0; and, for one that does not parse,
      only when nothing can be newer than what the command makes of it. */
  lemma CommandAgreesIff(current: string)
    ensures (forall release :: Newer(NormalizeUpgradeCurrentVersion(current), release) == Newer(current, release))
            <==> if Parseable(current) then Understood(current) || Tied(current, ZERO_VERSION)
                 else AtTop(NormalizeUpgradeCurrentVersion(current))
  {
    var v := NormalizeUpgradeCurrentVersion(current);
    CommandVersionParses(current);
    if Parseable(current) {
      ParsedCommandAgreesIff(current);
    } else {
      hide AtTop, Parseable, NormalizeUpgradeCurrentVersion, Component;
      SomethingIsNewerIff(v);
    }
  }

  lemma ParsedCommandAgreesIff(current: string)
    requires Parseable(current)
    ensures (forall release :: Newer(NormalizeUpgradeCurrentVersion(current), release) == Newer(current, release))
            <==> Understood(current) || Tied(current, ZERO_VERSION)
  {
    var v := NormalizeUpgradeCurrentVersion(current);
    CommandVersionOf(current);
    ZeroVersionParses();
    NormalOfNumbers(Normalize(current));
    NormalOfNumbers(ZERO_VERSION);
    hide Newer, Parse, Normalize, NormalizeUpgradeCurrentVersion, Understood;
    if Understood(current) {
      forall release
        ensures Newer(v, release) == Newer(current, release)
      {
        NewerOfNormalForms(v, current, release, release);
      }
    } else {
      NewerIsStrictWeakOrder(current, current, current);
      NewerIsStrictWeakOrder(v, v, v);
      forall release | Tied(current, v)
        ensures Newer(v, release) == Newer(current, release)
      {
        NewerIsStrictWeakOrder(v, current, release);
        NewerIsStrictWeakOrder(current, v, release);
      }
    }
  }

  const DEV_VERSION := "dev"

  /** A build without a version, the default, is 0.0.0 to the command, while to the daemon no release is newer. */
  lemma DevelopmentBuild(release: string)
    ensures NormalizeUpgradeCurrentVersion(DEV_VERSION) == ZERO_VERSION && !Parseable(DEV_VERSION)
    ensures !Newer(DEV_VERSION, release)
    ensures Newer(ZERO_VERSION, "1")
  {
    TrimSpaceOfTrimmed(DEV_VERSION);
    DevIsNoNumber();
    hide Atoi, Split, TrimSpace, Parse;
    OneDigitVersion('1');
    ZeroVersionParses();
    NormalOfNumbers(ZERO_VERSION);
  }

  lemma DevIsNoNumber()
    ensures !AllNumbers(Split(DEV_VERSION, '.')) && Parse(DEV_VERSION) == []
  {
    SplitAtFirst(DEV_VERSION, "", '.');
    hide Split;
    if Atoi(DEV_VERSION).Some? {
      hide Atoi;
      NumeralEnds(DEV_VERSION);
      assert false;
    }
    assert Atoi(Split(DEV_VERSION, '.')[0]).None?;
    hide Atoi;
  }

  /** The command takes the version for less than it is. */
  predicate Understated(version: string) {
    && Newer(ZERO_VERSION, version)
    && (|Parse(Normalize(version))| > 3 || (HasPrefix(TrimSpace(version), "v") && !HasPrefix(version, "v")))
  }

  lemma UnderstatedIff(version: string)
    ensures Newer(NormalizeUpgradeCurrentVersion(version), version) <==> Understated(version)
  {
    if Parseable(version) {
      CommandVersionOf(version);
      NormalOfNumbers(Normalize(version));
      hide Parse, TrimSpace, Component;
      if Understood(version) {
        NewerIsStrictWeakOrder(version, version, version);
        NewerOfNormalForms(Normalize(version), version, version, version);
      }
    }
  }

  /** Four numbers above 0.0.0 are understated. */
  lemma FourNumbersUnderstated()
    ensures Understated("2.0.0.0")
  {
    var v := "2.0.0.0";
    ParseOfFour();
    ZeroVersionParses();
    hide Parse;
    NormalOfNumbers(v);
    NormalOfNumbers(ZERO_VERSION);
  }

  lemma ParseOfFour()
    ensures Parse("2.0.0.0") == [2, 0, 0, 0]
  {
    hide Parse, Split;
    ZeroVersionParses();
    assert "2"[..0] == "" && Decimal("2") == 2;
    assert Atoi("2") == Some(2);
    hide Atoi;
    NumberInFront("2", ZERO_VERSION, 2);
    assert "2.0.0.0" == "2" + "." + ZERO_VERSION;
  }

  // ---- an order on all versions ------------------------------------------------------------

  /** `a` is below `b`, where a version that does not parse is below every one that does. */
  predicate Lower(a: string, b: string) {
    Newer(a, b) || (!Parseable(a) && Parseable(b))
  }

  lemma LowerIsStrictWeakOrder(a: string, b: string, c: string)
    ensures !Lower(a, a)
    ensures Lower(a, b) && Lower(b, c) ==> Lower(a, c)
    ensures Lower(a, c) ==> Lower(a, b) || Lower(b, c)
  {
    hide Newer, Parseable;
    NewerIsStrictWeakOrder(a, b, c);
    NewerIsStrictWeakOrder(b, c, a);
    NewerIsStrictWeakOrder(a, c, b);
  }
}
