/** Values shared by every component, and the few functions of Go's `strings`
    and `strconv` packages the daemon relies on, over sequences of characters. */
module Text {

  datatype Option<+T> = None | Some(value: T)

  const MAX_INT64: int := 0x7FFF_FFFF_FFFF_FFFF
  const MIN_INT64: int := -0x8000_0000_0000_0000

  /** The value two's complement arithmetic on 64 bits keeps. */
  function Wrap64(x: int): int {
    (x - MIN_INT64) % 0x1_0000_0000_0000_0000 + MIN_INT64
  }

  lemma WrapIsCongruent(x: int)
    ensures MIN_INT64 <= Wrap64(x) <= MAX_INT64 && (Wrap64(x) - x) % 0x1_0000_0000_0000_0000 == 0
  {
    var m := 0x1_0000_0000_0000_0000;
    var q := (x - MIN_INT64) / m;
    assert Wrap64(x) - x == (0 - q) * m;
  }

  /** The characters with Unicode's White_Space property. */
  predicate IsSpace(c: char) {
    var k := c as int;
    9 <= k <= 13 || k == 0x20 || k == 0x85 || k == 0xA0 || k == 0x1680
    || 0x2000 <= k <= 0x200A || k == 0x2028 || k == 0x2029 || k == 0x202F || k == 0x205F || k == 0x3000
  }

  predicate Blank(s: string) {
    forall i | 0 <= i < |s| :: IsSpace(s[i])
  }

  /** No white space at either end. */
  predicate Trimmed(s: string) {
    s != "" ==> !IsSpace(s[0]) && !IsSpace(s[|s| - 1])
  }

  function TrimLeft(s: string): string {
    if s != "" && IsSpace(s[0]) then TrimLeft(s[1..]) else s
  }

  function TrimRight(s: string): string {
    if s != "" && IsSpace(s[|s| - 1]) then TrimRight(s[..|s| - 1]) else s
  }

  function TrimSpace(s: string): string {
    TrimRight(TrimLeft(s))
  }

  lemma {:induction false} TrimLeftSkipsBlanks(pre: string, s: string)
    requires Blank(pre)
    requires s != "" ==> !IsSpace(s[0])
    ensures TrimLeft(pre + s) == s
  {
    if pre == "" {
      assert pre + s == s;
    } else {
      assert (pre + s)[1..] == pre[1..] + s;
      TrimLeftSkipsBlanks(pre[1..], s);
    }
  }

  lemma {:induction false} TrimRightSkipsBlanks(s: string, post: string)
    requires Blank(post)
    requires s != "" ==> !IsSpace(s[|s| - 1])
    ensures TrimRight(s + post) == s
  {
    if post == "" {
      assert s + post == s;
    } else {
      assert (s + post)[..|s + post| - 1] == s + post[..|post| - 1];
      TrimRightSkipsBlanks(s, post[..|post| - 1]);
    }
  }

  /** Whatever has no blanks at its ends is what trimming leaves of it, with any blanks around it. */
  lemma TrimSpaceOf(pre: string, core: string, post: string)
    requires Blank(pre) && Blank(post) && Trimmed(core)
    ensures TrimSpace(pre + core + post) == core
  {
    if core == "" {
      assert Blank(pre + post);
      assert pre + core + post == (pre + post) + "";
      TrimLeftSkipsBlanks(pre + post, "");
    } else {
      assert pre + core + post == pre + (core + post);
      TrimLeftSkipsBlanks(pre, core + post);
      TrimRightSkipsBlanks(core, post);
    }
  }

  lemma TrimSpaceOfTrimmed(s: string)
    requires Trimmed(s)
    ensures TrimSpace(s) == s
  {
  }

  lemma {:induction false} TrimLeftSplit(s: string) returns (pre: string)
    ensures s == pre + TrimLeft(s) && Blank(pre)
    ensures TrimLeft(s) != "" ==> !IsSpace(TrimLeft(s)[0])
  {
    pre := "";
    if s != "" && IsSpace(s[0]) {
      pre := TrimLeftSplit(s[1..]);
      pre := [s[0]] + pre;
    }
  }

  lemma {:induction false} TrimRightSplit(s: string) returns (post: string)
    ensures s == TrimRight(s) + post && Blank(post)
    ensures TrimRight(s) != "" ==> !IsSpace(TrimRight(s)[|TrimRight(s)| - 1])
  {
    post := "";
    if s != "" && IsSpace(s[|s| - 1]) {
      post := TrimRightSplit(s[..|s| - 1]);
      post := post + [s[|s| - 1]];
      assert s == s[..|s| - 1] + [s[|s| - 1]];
    }
  }

  lemma TrimSpaceSplit(s: string) returns (pre: string, post: string)
    ensures s == pre + TrimSpace(s) + post
    ensures Blank(pre) && Blank(post) && Trimmed(TrimSpace(s))
  {
    pre := TrimLeftSplit(s);
    post := TrimRightSplit(TrimLeft(s));
    assert s == pre + (TrimSpace(s) + post);
  }

  /** Nothing is left of a text exactly when all of it is blank. */
  lemma BlankIff(s: string)
    ensures TrimSpace(s) == "" <==> Blank(s)
  {
    var pre, post := TrimSpaceSplit(s);
    if TrimSpace(s) != "" {
      assert s[|pre|] == TrimSpace(s)[0];
    }
  }

  predicate HasPrefix(s: string, prefix: string) {
    prefix <= s
  }

  predicate HasSuffix(s: string, suffix: string) {
    |suffix| <= |s| && s[|s| - |suffix|..] == suffix
  }

  /** The pieces of `s` between occurrences of `sep`; there is always at least one. */
  function Split(s: string, sep: char): (parts: seq<string>)
    ensures |parts| >= 1
  {
    if s == "" then [""]
    else
      var rest := Split(s[1..], sep);
      if s[0] == sep then [""] + rest else [[s[0]] + rest[0]] + rest[1..]
  }

  predicate AllDigits(s: string) {
    forall i | 0 <= i < |s| :: '0' <= s[i] <= '9'
  }

  function Decimal(s: string): nat
    requires AllDigits(s)
  {
    if s == "" then 0 else Decimal(s[..|s| - 1]) * 10 + (s[|s| - 1] as int - '0' as int)
  }

  /** `strconv.Atoi`: an optional sign and at least one digit, within the 64-bit range. */
  function Atoi(s: string): Option<int> {
    var signed := s != "" && (s[0] == '-' || s[0] == '+');
    var digits := if signed then s[1..] else s;
    if digits == "" || !AllDigits(digits) then None
    else
      var n: int := if signed && s[0] == '-' then 0 - Decimal(digits) else Decimal(digits);
      if MIN_INT64 <= n <= MAX_INT64 then Some(n) else None
  }

  function LowerChar(c: char): char {
    if 'A' <= c <= 'Z' then (c as int + 32) as char else c
  }

  function ToLower(s: string): string {
    seq(|s|, i requires 0 <= i < |s| => LowerChar(s[i]))
  }

  /** Equality up to the case of ASCII letters. */
  predicate EqualFold(a: string, b: string) {
    ToLower(a) == ToLower(b)
  }
}
