/** `ReadLogTail` of internal/daemon/service.go: a ring of the last n lines, filled from a buffered reader
    that hands out long lines in pieces, and that hides a failed read of the file from its caller when
    it can hand out the part of a line that it already has. */
module LogTail {
  import opened Text

  // ---- what the result should be -----------------------------------------------------------

  /** How many reads in a row fail at each position of the file. */
  type Failures = nat -> nat

  /** The first position at or after `pos` that is a newline, the end, or where a read fails. */
  function StopAt(content: string, failures: Failures, pos: nat): (end: nat)
    requires pos <= |content|
    ensures pos <= end <= |content|
    ensures '\n' !in content[pos..end]
    ensures end < |content| ==> content[end] == '\n' || failures(end) > 0
    decreases |content| - pos
  {
    if pos == |content| || content[pos] == '\n' || failures(pos) > 0 then pos
    else
      var end := StopAt(content, failures, pos + 1);
      assert content[pos..end] == [content[pos]] + content[pos + 1..end];
      end
  }

  /** Where the line that begins at `start` ends. A failure at its very start does not count: it is
      over, or it has been reported. */
  function LineEnd(content: string, failures: Failures, start: nat): (end: nat)
    requires start <= |content|
    ensures start <= end <= |content|
    ensures '\n' !in content[start..end]
    ensures end < |content| ==> content[end] == '\n' || (failures(end) > 0 && end > start)
    ensures start < |content| && content[start] != '\n' ==> end > start
  {
    if start == |content| || content[start] == '\n' then start
    else
      var end := StopAt(content, failures, start + 1);
      assert content[start..end] == [content[start]] + content[start + 1..end];
      end
  }

  /** The line is cut short at its end, by the end of the file or by a failed read. */
  predicate Cut(content: string, failures: Failures, start: nat, end: nat) {
    end == |content| || (failures(end) > 0 && end > start)
  }

  /** A carriage return before the newline belongs to the line end. */
  function StripReturn(line: string): string {
    if line != "" && line[|line| - 1] == '\r' then line[..|line| - 1] else line
  }

  /** The lines of the content from `pos` on, where a failed read inside a line ends it; an
      unterminated last line counts when it is not empty. */
  function Lines(content: string, failures: Failures, pos: nat): seq<string>
    requires pos <= |content|
    decreases |content| - pos
  {
    if pos == |content| then []
    else
      var end := LineEnd(content, failures, pos);
      if Cut(content, failures, pos, end) then [content[pos..end]] + Lines(content, failures, end)
      else [StripReturn(content[pos..end])] + Lines(content, failures, end + 1)
  }

  function LastN(lines: seq<string>, n: nat): (tail: seq<string>)
    ensures |tail| == if |lines| <= n then |lines| else n
    ensures forall i | 0 <= i < |tail| :: tail[i] == lines[|lines| - |tail| + i]
  {
    if |lines| <= n then lines else lines[|lines| - n..]
  }

  function TrimTrailingEmpty(lines: seq<string>): seq<string> {
    if lines != [] && lines[|lines| - 1] == "" then TrimTrailingEmpty(lines[..|lines| - 1]) else lines
  }

  lemma LinesAt(content: string, failures: Failures, start: nat)
    requires start < |content|
    ensures var end := LineEnd(content, failures, start);
      Lines(content, failures, start)
      == if Cut(content, failures, start, end) then [content[start..end]] + Lines(content, failures, end)
         else [StripReturn(content[start..end])] + Lines(content, failures, end + 1)
  {
  }

  // ---- lines written out -------------------------------------------------------------------

  /** How a line was ended when it was written. */
  datatype Written = Written(line: string, crlf: bool)

  /** Every line with its end behind it. */
  function WrittenOut(lines: seq<Written>): string {
    if lines == [] then ""
    else lines[0].line + (if lines[0].crlf then "\r\n" else "\n") + WrittenOut(lines[1..])
  }

  function LinesOf(lines: seq<Written>): seq<string> {
    if lines == [] then [] else [lines[0].line] + LinesOf(lines[1..])
  }

  /** It has no newline in it, and no carriage return at its end. */
  predicate Plain(line: string) {
    '\n' !in line && (line != "" ==> line[|line| - 1] != '\r')
  }

  ghost predicate NoFailures(failures: Failures) {
    forall p: nat :: failures(p) == 0
  }

  /** Where the first newline is, if no read fails. */
  lemma {:induction false} StopAtNewline(content: string, failures: Failures, pos: nat, end: nat)
    requires NoFailures(failures) && pos <= end <= |content| && '\n' !in content[pos..end]
    requires end < |content| ==> content[end] == '\n'
    ensures StopAt(content, failures, pos) == end
    decreases end - pos
  {
    if pos < end {
      assert content[pos] == content[pos..end][0];
      assert content[pos + 1..end] == content[pos..end][1..];
      StopAtNewline(content, failures, pos + 1, end);
    }
  }

  lemma LineEndAtNewline(content: string, failures: Failures, pos: nat, end: nat)
    requires NoFailures(failures) && pos <= end <= |content| && '\n' !in content[pos..end]
    requires end < |content| ==> content[end] == '\n'
    ensures LineEnd(content, failures, pos) == end
  {
    if pos < end {
      assert content[pos] == content[pos..end][0];
      assert content[pos + 1..end] == content[pos..end][1..];
      StopAtNewline(content, failures, pos + 1, end);
    }
  }

  lemma UnendedLine(before: string, last: string, failures: Failures)
    requires NoFailures(failures) && '\n' !in last
    ensures Lines(before + last, failures, |before|) == if last == "" then [] else [last]
  {
    var content := before + last;
    assert content[|before|..|content|] == last;
    LineEndAtNewline(content, failures, |before|, |content|);
    if last != "" {
      LinesAt(content, failures, |before|);
      LinesAtEnd(content, failures);
    }
    hide LineEnd;
  }

  lemma EndedLine(before: string, w: Written, rest: string, failures: Failures)
    requires NoFailures(failures) && Plain(w.line)
    ensures var next := before + w.line + (if w.crlf then "\r\n" else "\n");
      Lines(next + rest, failures, |before|) == [w.line] + Lines(next + rest, failures, |next|)
  {
    hide LineEnd, Lines, StripReturn, Plain;
    var raw := w.line + if w.crlf then "\r" else "";
    EndIsStripped(w);
    var next := before + w.line + (if w.crlf then "\r\n" else "\n");
    assert next == before + raw + "\n";
    SliceBehind(before, raw, rest);
    LineBetween(next + rest, failures, |before|, |before| + |raw|);
  }

  lemma EndIsStripped(w: Written)
    requires Plain(w.line)
    ensures var raw := w.line + if w.crlf then "\r" else ""; StripReturn(raw) == w.line && '\n' !in raw
  {
  }

  lemma LineBetween(content: string, failures: Failures, start: nat, end: nat)
    requires NoFailures(failures) && start <= end < |content|
    requires '\n' !in content[start..end] && content[end] == '\n'
    ensures Lines(content, failures, start) == [StripReturn(content[start..end])] + Lines(content, failures, end + 1)
  {
    hide LineEnd, Lines, StripReturn;
    LineEndAtNewline(content, failures, start, end);
    LinesAt(content, failures, start);
  }

  lemma SliceBehind(before: string, raw: string, rest: string)
    ensures var content := before + raw + "\n" + rest;
      content[|before|..|before| + |raw|] == raw && content[|before| + |raw|] == '\n'
  {
  }

  lemma Regrouped(a: string, b: string, c: string, d: string)
    ensures a + (b + c) + d == (a + b) + (c + d) == (a + b) + c + d
  {
  }

  /** Lines that were written, with either end, and perhaps a last one without an end, come back as they
      were written. */
  lemma {:induction false} LinesComeBack(before: string, lines: seq<Written>, last: string, failures: Failures)
    requires NoFailures(failures) && '\n' !in last
    requires forall l | l in lines :: Plain(l.line)
    ensures Lines(before + WrittenOut(lines) + last, failures, |before|) == LinesOf(lines) + if last == "" then [] else [last]
    decreases |lines|
  {
    hide Lines, Plain;
    if lines == [] {
      UnendedLine(before, last, failures);
      assert before + WrittenOut(lines) + last == before + last;
    } else {
      var w := lines[0];
      assert w in lines && forall l | l in lines[1..] :: l in lines;
      var next := before + w.line + (if w.crlf then "\r\n" else "\n");
      var rest := WrittenOut(lines[1..]) + last;
      Regrouped(before, w.line + (if w.crlf then "\r\n" else "\n"), WrittenOut(lines[1..]), last);
      assert next == before + (w.line + (if w.crlf then "\r\n" else "\n"));
      hide WrittenOut;
      LinesComeBack(next, lines[1..], last, failures);
      EndedLine(before, w, rest, failures);
    }
  }

  lemma LinesAtEnd(content: string, failures: Failures)
    ensures Lines(content, failures, |content|) == []
  {
  }

  /** Trimming removes a block of empty lines and stops at a line that is not empty. */
  lemma {:induction false} TrimIsMaximal(lines: seq<string>)
    ensures var t := TrimTrailingEmpty(lines);
      && t <= lines
      && (forall i | |t| <= i < |lines| :: lines[i] == "")
      && (t != [] ==> t[|t| - 1] != "")
  {
    if lines != [] && lines[|lines| - 1] == "" {
      TrimIsMaximal(lines[..|lines| - 1]);
    }
  }

  /** Trimming comes after the last n lines are taken: fewer than n lines, or than there are, come out
      exactly when the very last line is empty. */
  lemma TailIsShorterIff(lines: seq<string>, n: nat)
    requires n > 0
    ensures |TrimTrailingEmpty(LastN(lines, n))| < (if |lines| <= n then |lines| else n)
            <==> lines != [] && lines[|lines| - 1] == ""
  {
    TrimIsMaximal(LastN(lines, n));
  }

  // ---- what a failing read does ------------------------------------------------------------

  /** No read fails at the start of a line, and none twice in a row inside one. */
  predicate Readable(content: string, failures: Failures) {
    forall p | 0 <= p <= |content| :: failures(p) <= Tolerated(content, p)
  }

  /** How many failing reads in a row the reader hides at this position. */
  function Tolerated(content: string, p: nat): nat {
    if 0 < p <= |content| && content[p - 1] != '\n' then 1 else 0
  }

  /** Every stretch that fills the buffer at some call has a newline in it. */
  ghost predicate ShortLines(content: string, limits: nat -> nat) {
    forall k: nat, i: nat, j: nat | i <= j <= |content| && j - i >= limits(k) :: '\n' in content[i..j]
  }

  /** Before the stop nothing fails. */
  lemma {:induction false} NothingFailsBefore(content: string, failures: Failures, pos: nat, p: nat)
    requires pos <= p && pos <= |content| && p < StopAt(content, failures, pos)
    ensures failures(p) == 0
    decreases p - pos
  {
    if pos < p {
      NothingFailsBefore(content, failures, pos + 1, p);
    }
  }

  lemma NothingFailsInside(content: string, failures: Failures, start: nat)
    requires start <= |content|
    ensures forall p: nat | start < p < LineEnd(content, failures, start) :: failures(p) == 0
  {
    forall p: nat | start < p < LineEnd(content, failures, start)
      ensures failures(p) == 0
    {
      NothingFailsBefore(content, failures, start + 1, p);
    }
  }

  /** What a piece says about failing reads: it passes none over, except one at its end. */
  ghost predicate Advances(
      content: string, limits: nat -> nat, failures: Failures, start: nat, pos: nat, passed: bool)
    requires start < pos <= |content|
  {
    && (forall p: nat | start < p < pos :: failures(p) == 0)
    && (passed ==> content[pos - 1] != '\n')
    && (!passed && failures(pos) > 0 && ShortLines(content, limits) ==> content[pos - 1] == '\n')
  }

  /** The reader has come to `pos` without an error. */
  ghost predicate ReadSoFar(content: string, limits: nat -> nat, failures: Failures, pos: nat, passed: bool)
    requires pos <= |content|
  {
    && (forall p: nat | p < pos :: failures(p) <= Tolerated(content, p))
    && (passed ==> Tolerated(content, pos) == 1)
    && (!passed && failures(pos) > 0 && ShortLines(content, limits) ==> Tolerated(content, pos) == 0)
  }

  lemma ReadFurther(
      content: string, limits: nat -> nat, failures: Failures, start: nat, passed: bool, pos: nat, passed': bool)
    requires start < pos <= |content|
    requires ReadSoFar(content, limits, failures, start, passed) && failures(start) <= (if passed then 1 else 0)
    requires Advances(content, limits, failures, start, pos, passed')
    ensures ReadSoFar(content, limits, failures, pos, passed')
  {
    hide ShortLines;
  }

  /** At an error, or at the end. */
  lemma ReadToTheEnd(content: string, limits: nat -> nat, failures: Failures, pos: nat, passed: bool)
    requires pos <= |content| && ReadSoFar(content, limits, failures, pos, passed)
    ensures pos == |content| && failures(pos) <= (if passed then 1 else 0) ==> Readable(content, failures)
    ensures ShortLines(content, limits) && failures(pos) > (if passed then 1 else 0) ==> !Readable(content, failures)
  {
    hide ShortLines;
    if failures(pos) > (if passed then 1 else 0) && ShortLines(content, limits) {
      assert failures(pos) > Tolerated(content, pos);
    }
  }

  /** For example, one read that fails between two characters of a line is hidden and makes it two. */
  lemma HiddenFailure()
    ensures var failures: Failures := (p: nat) => if p == 1 then 1 else 0;
      && Readable("ab", failures)
      && Lines("ab", failures, 0) == ["a", "b"]
      && Lines("ab", (p: nat) => 0, 0) == ["ab"]
  {
    var failures: Failures := (p: nat) => if p == 1 then 1 else 0;
    var none: Failures := (p: nat) => 0;
    assert "ab"[0..1] == "a" && "ab"[1..2] == "b" && "ab"[0..2] == "ab";
    assert StopAt("ab", failures, 1) == 1 && StopAt("ab", failures, 2) == 2;
    assert StopAt("ab", none, 2) == 2 && StopAt("ab", none, 1) == 2;
    assert LineEnd("ab", failures, 0) == 1 && LineEnd("ab", failures, 1) == 2 && LineEnd("ab", none, 0) == 2;
    assert Lines("ab", failures, 2) == [] && Lines("ab", none, 2) == [];
    assert Lines("ab", failures, 1) == ["b"];
  }

  // ---- the reader --------------------------------------------------------------------------

  /** One `ReadLine`: a piece of a line, or the end of the file, or an error. */
  datatype Piece = Piece(chunk: string, isPrefix: bool) | EndOfFile | ReadError

  /** Over a buffer that holds `limit` characters at this call. A piece that fills the buffer is a
      prefix; if it ends in a carriage return, that is left for the next call. A read that fails with
      part of a line in the buffer makes that part a whole line, without an error. */
  class LineReader {
    const content: string
    const limits: nat -> nat              // the buffer space of each call, at least two
    const failures: Failures
    var pos: nat
    var calls: nat
    var passed: bool                      // one failure at `pos` has been passed over

    ghost predicate Valid()
      reads this
    {
      pos <= |content| && (forall k: nat :: limits(k) >= 2) && (passed ==> failures(pos) > 0)
    }

    constructor (content: string, limits: nat -> nat, failures: Failures)
      requires forall k: nat :: limits(k) >= 2
      ensures Valid() && pos == 0 && calls == 0 && !passed
      ensures this.content == content && this.limits == limits && this.failures == failures
    {
      this.content, this.limits, this.failures := content, limits, failures;
      pos, calls, passed := 0, 0, false;
    }

    /** The next read of the file would fail, with nothing in the buffer. */
    predicate FailsNow()
      reads this
    {
      failures(pos) > if passed then 1 else 0
    }

    method ReadLine() returns (p: Piece)
      requires Valid()
      modifies this
      ensures Valid() && calls == old(calls) + 1
      ensures p.ReadError? <==> old(FailsNow())
      ensures !p.Piece? ==> pos == old(pos) && passed == old(passed)
      ensures p.EndOfFile? ==> pos == |content|
      ensures p.Piece? ==> old(pos) < pos <= |content|
      ensures p.Piece? ==> IsPiece(content, failures, old(pos), pos, p.chunk, p.isPrefix)
      ensures p.Piece? && p.isPrefix ==> limits(old(calls)) <= LineEnd(content, failures, old(pos)) - old(pos)
      ensures p.Piece? ==> passed == (!p.isPrefix && failures(pos) > 0 && pos == LineEnd(content, failures, old(pos)))
    {
      calls := calls + 1;
      var start, end := pos, LineEnd(content, failures, pos);
      if FailsNow() {
        return ReadError;
      }
      if start == |content| {
        return EndOfFile;
      }
      var space := limits(calls - 1);
      if end - start >= space {
        var length := if content[start + space - 1] == '\r' then space - 1 else space;
        pos, passed := start + length, false;
        PrefixOfLine(content, start, end, length);
        return Piece(content[start..pos], true);
      }
      if Cut(content, failures, start, end) {
        pos, passed := end, failures(end) > 0;
        return Piece(content[start..end], false);
      }
      pos, passed := end + 1, false;
      return Piece(StripReturn(content[start..end]), false);
    }
  }

  /** What a piece says about the content: a prefix is part of a line, with no carriage return
      separated from its newline; the last piece of a line runs to the line's end. */
  predicate IsPiece(content: string, failures: Failures, start: nat, pos: nat, chunk: string, isPrefix: bool)
    requires start < pos <= |content|
  {
    var end := LineEnd(content, failures, start);
    if isPrefix then
      && pos <= end && chunk == content[start..pos]
      && (pos < |content| && content[pos] == '\n' ==> content[pos - 1] != '\r')
    else if Cut(content, failures, start, end) then pos == end && chunk == content[start..end]
    else pos == end + 1 && chunk == StripReturn(content[start..end])
  }

  lemma PrefixAdvances(content: string, limits: nat -> nat, failures: Failures, start: nat, pos: nat, k: nat)
    requires start < |content| && start < pos <= LineEnd(content, failures, start)
    requires limits(k) <= LineEnd(content, failures, start) - start
    ensures Advances(content, limits, failures, start, pos, false)
  {
    NothingFailsInside(content, failures, start);
    hide LineEnd;
    assert !ShortLines(content, limits);
  }

  lemma LineAdvances(content: string, limits: nat -> nat, failures: Failures, start: nat)
    requires start < |content|
    ensures var end := LineEnd(content, failures, start);
      if Cut(content, failures, start, end)
      then start < end && Advances(content, limits, failures, start, end, failures(end) > 0)
      else end < |content| && Advances(content, limits, failures, start, end + 1, false)
  {
    NothingFailsInside(content, failures, start);
    hide LineEnd, ShortLines;
    var end := LineEnd(content, failures, start);
    if end > start {
      assert content[end - 1] == content[start..end][end - start - 1];
    }
  }

  lemma PieceAdvances(
      content: string, limits: nat -> nat, failures: Failures, start: nat, pos: nat, chunk: string, isPrefix: bool,
      passed: bool, k: nat)
    requires start < pos <= |content| && IsPiece(content, failures, start, pos, chunk, isPrefix)
    requires isPrefix ==> limits(k) <= LineEnd(content, failures, start) - start
    requires passed == (!isPrefix && failures(pos) > 0 && pos == LineEnd(content, failures, start))
    ensures Advances(content, limits, failures, start, pos, passed)
  {
    if isPrefix {
      PrefixAdvances(content, limits, failures, start, pos, k);
    } else {
      LineAdvances(content, limits, failures, start);
    }
    hide LineEnd, Advances, StripReturn;
  }

  lemma PrefixOfLine(content: string, start: nat, end: nat, length: nat)
    requires start <= end <= |content| && '\n' !in content[start..end] && length <= end - start
    requires 1 <= length
    requires content[start + length - 1] != '\r' || start + length < end
    ensures start + length < |content| && content[start + length] == '\n' ==> content[start + length - 1] != '\r'
  {
    if start + length < end {
      assert content[start + length] == content[start..end][length];
    }
  }

  /** From inside a line the end is the same. */
  lemma {:induction false} StopAtWithin(content: string, failures: Failures, start: nat, pos: nat)
    requires start <= |content| && start <= pos <= StopAt(content, failures, start)
    ensures StopAt(content, failures, pos) == StopAt(content, failures, start)
    decreases pos - start
  {
    if start < pos {
      StopAtWithin(content, failures, start + 1, pos);
    }
  }

  /** Past a prefix that ends where no read fails, the line is the same line. */
  lemma LineEndWithin(content: string, failures: Failures, start: nat, pos: nat)
    requires start <= |content| && start <= pos <= LineEnd(content, failures, start)
    requires start < pos ==> failures(pos) == 0
    ensures LineEnd(content, failures, pos) == LineEnd(content, failures, start)
  {
    if start < pos {
      StopAtWithin(content, failures, start + 1, pos);
    }
  }

  // ---- the ring ----------------------------------------------------------------------------

  /** The ring holds the last `Length` of the lines seen. */
  ghost predicate RingHolds(ring: array<string>, seen: seq<string>)
    reads ring
  {
    ring.Length > 0 &&
    forall i | 0 <= i < |seen| && |seen| - ring.Length <= i :: ring[i % ring.Length] == seen[i]
  }

  lemma SmallMultiple(d: int, n: int)
    requires 0 < n && -n < d * n < n
    ensures d == 0
  {
  }

  lemma ModUnique(a: int, q: int, r: int, n: int)
    requires 0 <= r < n && a == q * n + r
    ensures a % n == r && a / n == q
  {
    assert a == (a / n) * n + a % n;
    assert (a / n - q) * n == r - a % n;
    SmallMultiple(a / n - q, n);
  }

  lemma ModInjective(a: int, b: int, n: int)
    requires 0 < n && a < b < a + n
    ensures a % n != b % n
  {
    if a % n == b % n {
      assert a == (a / n) * n + a % n;
      ModUnique(b, b / n, a % n, n);
      assert (b / n - a / n) * n == b - a;
      SmallMultiple(b / n - a / n, n);
    }
  }

  method PutLine(ring: array<string>, ghost seen: seq<string>, count: nat, line: string)
    requires RingHolds(ring, seen) && count == |seen|
    modifies ring
    ensures RingHolds(ring, seen + [line])
  {
    ring[count % ring.Length] := line;
    forall i | 0 <= i < |seen| && |seen| + 1 - ring.Length <= i
      ensures ring[i % ring.Length] == seen[i]
    {
      ModInjective(i, count, ring.Length);
    }
  }

  datatype TailResult = Tail(lines: seq<string>) | Failed

  /** The lines read so far, then the unread rest of the current line and the rest of the content. */
  ghost predicate Progress(content: string, failures: Failures, pos: nat, seen: seq<string>, start: nat, built: string)
    requires pos <= |content|
  {
    && start <= pos <= LineEnd(content, failures, start)
    && built == content[start..pos]
    && Lines(content, failures, 0) == seen + Lines(content, failures, start)
    && (pos > start && pos < |content| && content[pos] == '\n' ==> content[pos - 1] != '\r')
  }

  /** Cutting a line in two, away from its carriage return, and stripping the second part strips the
      line. */
  lemma StripSecondPart(content: string, start: nat, pos: nat, end: nat)
    requires start <= pos <= end <= |content|
    requires pos == end > start ==> content[pos - 1] != '\r'
    ensures StripReturn(content[start..end]) == content[start..pos] + StripReturn(content[pos..end])
  {
    var line, rest := content[start..end], content[pos..end];
    assert line == content[start..pos] + rest;
    if pos < end {
      assert line[|line| - 1] == rest[|rest| - 1] == content[end - 1];
      assert line[..|line| - 1] == content[start..pos] + rest[..|rest| - 1];
    } else {
      assert line != "" ==> line[|line| - 1] == content[pos - 1];
    }
  }

  lemma PieceEndsLine(content: string, failures: Failures, start: nat, pos: nat, next: nat, chunk: string)
    requires start <= pos < next <= |content| && pos <= LineEnd(content, failures, start)
    requires start < pos ==> failures(pos) == 0
    requires pos > start && content[pos] == '\n' ==> content[pos - 1] != '\r'
    requires IsPiece(content, failures, pos, next, chunk, false)
    ensures Lines(content, failures, start) == [content[start..pos] + chunk] + Lines(content, failures, next)
  {
    hide Lines, StripReturn, Cut, LineEnd;
    LineEndWithin(content, failures, start, pos);
    LinesAt(content, failures, start);
    PieceIsRest(content, failures, start, pos, LineEnd(content, failures, start), next, chunk);
  }

  lemma PieceIsRest(content: string, failures: Failures, start: nat, pos: nat, end: nat, next: nat, chunk: string)
    requires start <= pos < next <= |content| && pos <= end <= |content|
    requires pos == end > start ==> content[pos - 1] != '\r' && failures(pos) == 0
    requires if Cut(content, failures, pos, end) then next == end && chunk == content[pos..end]
             else next == end + 1 && chunk == StripReturn(content[pos..end])
    ensures Cut(content, failures, start, end) <==> Cut(content, failures, pos, end)
    ensures content[start..pos] + chunk
            == if Cut(content, failures, start, end) then content[start..end] else StripReturn(content[start..end])
  {
    if Cut(content, failures, pos, end) {
      JoinedSlices(content, start, pos, end);
    } else {
      StripSecondPart(content, start, pos, end);
    }
  }

  lemma JoinedSlices(content: string, start: nat, pos: nat, end: nat)
    requires start <= pos <= end <= |content|
    ensures content[start..end] == content[start..pos] + content[pos..end]
  {
  }

  /** The last piece of a line completes it. */
  lemma LineCompletes(
      content: string, failures: Failures, pos: nat, next: nat, seen: seq<string>, start: nat, built: string, chunk: string)
    requires pos < next <= |content| && Progress(content, failures, pos, seen, start, built)
    requires start < pos ==> failures(pos) == 0
    requires IsPiece(content, failures, pos, next, chunk, false)
    ensures Progress(content, failures, next, seen + [built + chunk], next, "")
  {
    PieceEndsLine(content, failures, start, pos, next, chunk);
    hide LineEnd, Lines, IsPiece;
    assert seen + ([built + chunk] + Lines(content, failures, next)) == seen + [built + chunk] + Lines(content, failures, next);
  }

  lemma LineContinues(
      content: string, failures: Failures, pos: nat, next: nat, seen: seq<string>, start: nat, built: string, chunk: string)
    requires pos < next <= |content| && Progress(content, failures, pos, seen, start, built)
    requires start < pos ==> failures(pos) == 0
    requires IsPiece(content, failures, pos, next, chunk, true)
    ensures Progress(content, failures, next, seen, start, built + chunk)
  {
    LineEndWithin(content, failures, start, pos);
    hide LineEnd, Lines, Cut, StripReturn;
    JoinedSlices(content, start, pos, next);
  }

  /** The state of the loop: what has been seen of the lines, and that no error has been met. */
  ghost predicate Going(
      content: string, limits: nat -> nat, failures: Failures, pos: nat, passed: bool,
      seen: seq<string>, start: nat, built: string)
  {
    && pos <= |content|
    && Progress(content, failures, pos, seen, start, built)
    && (start < pos ==> !passed)
    && ReadSoFar(content, limits, failures, pos, passed)
  }

  lemma Begins(content: string, limits: nat -> nat, failures: Failures)
    ensures Going(content, limits, failures, 0, false, [], 0, "")
  {
    hide Lines, ShortLines;
  }

  /** One more piece. */
  lemma GoesOn(
      content: string, limits: nat -> nat, failures: Failures, pos: nat, passed: bool,
      seen: seq<string>, start: nat, built: string, next: nat, passed': bool, chunk: string, isPrefix: bool, k: nat)
    requires Going(content, limits, failures, pos, passed, seen, start, built)
    requires failures(pos) <= if passed then 1 else 0
    requires pos < next <= |content| && IsPiece(content, failures, pos, next, chunk, isPrefix)
    requires isPrefix ==> limits(k) <= LineEnd(content, failures, pos) - pos
    requires passed' == (!isPrefix && failures(next) > 0 && next == LineEnd(content, failures, pos))
    ensures if isPrefix then Going(content, limits, failures, next, passed', seen, start, built + chunk)
            else Going(content, limits, failures, next, passed', seen + [built + chunk], next, "")
  {
    hide Lines, LineEnd, IsPiece, Progress, Advances, ReadSoFar, ShortLines;
    PieceAdvances(content, limits, failures, pos, next, chunk, isPrefix, passed', k);
    ReadFurther(content, limits, failures, pos, passed, next, passed');
    if isPrefix {
      LineContinues(content, failures, pos, next, seen, start, built, chunk);
    } else {
      LineCompletes(content, failures, pos, next, seen, start, built, chunk);
    }
  }

  lemma Ends(
      content: string, limits: nat -> nat, failures: Failures, pos: nat, passed: bool,
      seen: seq<string>, start: nat, built: string)
    requires Going(content, limits, failures, pos, passed, seen, start, built)
    ensures pos == |content| && failures(pos) <= (if passed then 1 else 0) ==>
              Readable(content, failures) && Lines(content, failures, 0) == if built == "" then seen else seen + [built]
    ensures ShortLines(content, limits) && failures(pos) > (if passed then 1 else 0) ==> !Readable(content, failures)
  {
    hide Lines, Progress, ReadSoFar, Readable, ShortLines;
    ReadToTheEnd(content, limits, failures, pos, passed);
    if pos == |content| {
      ProgressEnds(content, failures, seen, start, built);
    }
  }

  lemma RingIsEmpty(ring: array<string>)
    requires ring.Length > 0
    ensures RingHolds(ring, [])
  {
  }

  lemma ProgressEnds(content: string, failures: Failures, seen: seq<string>, start: nat, built: string)
    requires Progress(content, failures, |content|, seen, start, built)
    ensures Lines(content, failures, 0) == if built == "" then seen else seen + [built]
  {
    hide LineEnd;
    assert Lines(content, failures, |content|) == [];
    if start < |content| {
      assert Lines(content, failures, start) == [built] + Lines(content, failures, |content|);
    }
  }

  /** The reading loop. */
  method FillRing(reader: LineReader, ring: array<string>) returns (ok: bool, count: nat, ghost seen: seq<string>)
    requires reader.Valid() && reader.pos == 0 && !reader.passed && ring.Length > 0
    modifies reader, ring
    ensures !Readable(reader.content, reader.failures) ==> !ok
    ensures ShortLines(reader.content, reader.limits) ==> (ok <==> Readable(reader.content, reader.failures))
    ensures ok <==> !reader.FailsNow()
    ensures ok ==> count == |seen| && RingHolds(ring, seen) && seen == Lines(reader.content, reader.failures, 0)
  {
    hide Lines, LineEnd, IsPiece, Going, RingHolds, Readable, ShortLines;
    var content := reader.content;
    var builder := "";
    ghost var start: nat := 0;
    count, seen := 0, [];
    RingIsEmpty(ring);
    Begins(content, reader.limits, reader.failures);
    while true
      invariant reader.Valid() && count == |seen|
      invariant RingHolds(ring, seen)
      invariant Going(content, reader.limits, reader.failures, reader.pos, reader.passed, seen, start, builder)
      decreases |content| - reader.pos
    {
      ghost var before, passed := reader.pos, reader.passed;
      Ends(content, reader.limits, reader.failures, before, passed, seen, start, builder);
      var p := reader.ReadLine();
      match p
      case ReadError =>
        return false, count, seen;
      case EndOfFile =>
        // a last line that filled the buffer exactly is still in the builder
        if builder != "" {
          PutLine(ring, seen, count, builder);
          count := count + 1;
          seen := seen + [builder];
        }
        return true, count, seen;
      case Piece(chunk, isPrefix) =>
        GoesOn(content, reader.limits, reader.failures, before, passed, seen, start, builder,
               reader.pos, reader.passed, chunk, isPrefix, reader.calls - 1);
        builder := builder + chunk;
        if isPrefix {
          continue;
        }
        PutLine(ring, seen, count, builder);
        count := count + 1;
        seen := seen + [builder];
        start := reader.pos;
        builder := "";
    }
  }

  /** For every content, every n, every way the buffer cuts long lines and every pattern of failing
      reads, the result is the last n lines with trailing empty ones trimmed, where a failed read that
      the reader hides ends a line. It always fails when a read fails at the start of a line or twice in
      a row inside one; and, where no line fills the buffer, only then. */
  method ReadLogTail(reader: LineReader, n: int) returns (r: TailResult)
    requires reader.Valid() && reader.pos == 0 && reader.calls == 0 && !reader.passed
    modifies reader
    ensures n <= 0 ==> r == Tail([])
    ensures n > 0 && r.Tail? ==> r == Tail(TrimTrailingEmpty(LastN(Lines(reader.content, reader.failures, 0), n)))
    ensures n > 0 && !Readable(reader.content, reader.failures) ==> r.Failed?
    ensures n > 0 && ShortLines(reader.content, reader.limits) ==>
              (r.Failed? <==> !Readable(reader.content, reader.failures))
    ensures n > 0 ==> (r.Failed? <==> reader.FailsNow())
  {
    if n <= 0 {
      return Tail([]);
    }
    hide Lines, RingHolds, Readable, ShortLines;
    var ring := new string[n](_ => "");
    var ok, count, seen := FillRing(reader, ring);
    if !ok {
      return Failed;
    }
    var tail := Unroll(ring, seen, count);
    var lines := TrimTrailing(tail);
    return Tail(lines);
  }

  /** Copy the ring out in order. */
  method Unroll(ring: array<string>, ghost seen: seq<string>, count: nat) returns (tail: seq<string>)
    requires RingHolds(ring, seen) && count == |seen|
    ensures tail == LastN(seen, ring.Length)
  {
    var n := ring.Length;
    if count <= n {
      forall i | 0 <= i < count
        ensures ring[i] == seen[i]
      {
        assert i % n == i || i == n;
      }
      return ring[..count];
    }
    tail := [];
    var start := count % n;
    for i := 0 to n
      invariant |tail| == i
      invariant forall k | 0 <= k < i :: tail[k] == seen[count - n + k]
    {
      assert (start + i) % n == (count - n + i) % n by {
        ModShift(count, i, n);
      }
      tail := tail + [ring[(start + i) % n]];
    }
  }

  lemma ModShift(count: int, i: int, n: int)
    requires 0 < n
    ensures (count % n + i) % n == (count - n + i) % n
  {
    var m := count % n + i;
    var q := count / n;
    assert count == q * n + count % n;
    assert m == (m / n) * n + m % n;
    assert (q - 1 + m / n) * n == (q - 1) * n + (m / n) * n;
    assert count - n + i == (q - 1) * n + m by {
      assert (q - 1) * n == q * n - n;
    }
    ModUnique(count - n + i, q - 1 + m / n, m % n, n);
  }

  method TrimTrailing(lines: seq<string>) returns (r: seq<string>)
    ensures r == TrimTrailingEmpty(lines)
  {
    r := lines;
    while |r| > 0 && r[|r| - 1] == ""
      invariant TrimTrailingEmpty(r) == TrimTrailingEmpty(lines)
    {
      r := r[..|r| - 1];
    }
  }
}
