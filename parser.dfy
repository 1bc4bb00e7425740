/**
 * Splitting the generator's reply into question blocks, sub-question lines
 * and part-a / part-b lines, and extracting the text of one line.
 */
module Parser {
  import opened Wrappers
  import opened JsString

  /** `.filter(q => q.trim() !== '')`: keeps, in order, exactly the non-blank pieces. */
  function DropBlank(parts: seq<string>): (r: seq<string>)
    ensures |r| <= |parts|
    ensures forall k :: 0 <= k < |r| ==> !IsBlank(r[k])
    ensures forall x :: x in r <==> x in parts && !IsBlank(x)
  {
    if |parts| == 0 then []
    else (if IsBlank(parts[0]) then [] else [parts[0]]) + DropBlank(parts[1..])
  }

  /** Filtering distributes over concatenation. */
  lemma {:induction false} DropBlankAppend(x: seq<string>, y: seq<string>)
    ensures DropBlank(x + y) == DropBlank(x) + DropBlank(y)
  {
    if |x| > 0 {
      assert (x + y)[1..] == x[1..] + y;
      DropBlankAppend(x[1..], y);
    } else {
      assert x + y == y;
    }
  }

  /** The question blocks: the non-blank pieces of the reply between the characters 'Q'. */
  function QuestionBlocks(reply: string): (r: seq<string>)
    ensures forall k :: 0 <= k < |r| ==> 'Q' !in r[k] && !IsBlank(r[k])
    ensures forall x :: x in r <==> x in Split(reply, 'Q') && !IsBlank(x)
  {
    DropBlank(Split(reply, 'Q'))
  }

  /**
   * Every 'Q' cuts the reply: the text before the first one is a block of
   * its own unless it is blank, whatever it holds.
   */
  lemma SplitAtFirstQ(pre: string, rest: string)
    requires 'Q' !in pre
    ensures QuestionBlocks(pre + "Q" + rest) == (if IsBlank(pre) then [] else [pre]) + QuestionBlocks(rest)
  {
    SplitAfter(pre, rest, 'Q');
    var r := Split(rest, 'Q');
    assert ([pre] + r)[1..] == r;
  }

  /** A reply without any 'Q' is one block, or none when it is blank. */
  lemma NoQOneBlock(reply: string)
    requires 'Q' !in reply
    ensures QuestionBlocks(reply) == if IsBlank(reply) then [] else [reply]
  {
    SplitFree(reply, 'Q');
    assert [reply][1..] == [];
  }

  /** The non-blank lines of one block. */
  function SubQuestions(block: string): (r: seq<string>)
    ensures forall k :: 0 <= k < |r| ==> '\n' !in r[k] && !IsBlank(r[k])
    ensures forall x :: x in r <==> x in Split(block, '\n') && !IsBlank(x)
  {
    DropBlank(Split(block, '\n'))
  }

  /** `.filter(q => q.startsWith(part))`, on the untrimmed line. */
  function PartLines(lines: seq<string>, part: char): (r: seq<string>)
    ensures |r| <= |lines|
    ensures forall k :: 0 <= k < |r| ==> StartsWith(r[k], part)
    ensures forall x :: x in r <==> x in lines && StartsWith(x, part)
  {
    if |lines| == 0 then []
    else (if StartsWith(lines[0], part) then [lines[0]] else []) + PartLines(lines[1..], part)
  }

  lemma {:induction false} PartLinesAppend(x: seq<string>, y: seq<string>, part: char)
    ensures PartLines(x + y, part) == PartLines(x, part) + PartLines(y, part)
  {
    if |x| > 0 {
      assert (x + y)[1..] == x[1..] + y;
      PartLinesAppend(x[1..], y, part);
    } else {
      assert x + y == y;
    }
  }

  /** Number of lines starting with 'a' or 'b'. */
  function LabelledCount(lines: seq<string>): nat
  {
    if |lines| == 0 then 0
    else (if StartsWith(lines[0], 'a') || StartsWith(lines[0], 'b') then 1 else 0) + LabelledCount(lines[1..])
  }

  /**
   * A line is kept by at most one of the two part filters, so together they
   * keep exactly the lines starting with 'a' or 'b'.
   */
  lemma {:induction false} PartLinesCount(lines: seq<string>)
    ensures |PartLines(lines, 'a')| + |PartLines(lines, 'b')| == LabelledCount(lines)
  {
    if |lines| > 0 {
      PartLinesCount(lines[1..]);
    }
  }

  /** Length of the longest run of ASCII digits at the start of `s`: what `\d*` consumes. */
  function DigitRun(s: string): (n: nat)
    ensures n <= |s| && AllDigits(s[..n])
    ensures n == |s| || !IsDigit(s[n])
  {
    if |s| > 0 && IsDigit(s[0]) then
      var n := 1 + DigitRun(s[1..]);
      assert s[..n] == [s[0]] + s[1..][..n - 1];
      n
    else 0
  }

  /** `s` is a whole match of the pattern `part \d* \) \s*`. */
  ghost predicate IsLabel(s: string, part: char)
  {
    exists d :: 1 <= d < |s| && s[d] == ')' && s[0] == part && AllDigits(s[1..d]) && AllWhiteSpace(s[d + 1..])
  }

  /**
   * The length of the match of `^part\d*\)\s*` on `line`, if it matches.
   * The digit run is maximal and so is the white-space run.
   */
  function LabelLength(line: string, part: char): (r: Option<nat>)
    ensures r.Some? ==> r.value <= |line|
    ensures r.Some? ==> r.value == |line| || !IsWhiteSpace(line[r.value])
  {
    if StartsWith(line, part) then
      var d := 1 + DigitRun(line[1..]);
      if d < |line| && line[d] == ')' then
        Some(d + 1 + LeadingSpace(line[d + 1..]))
      else None
    else None
  }

  /** What the look-up reports is a match of the pattern. */
  lemma LabelLengthSound(line: string, part: char)
    requires LabelLength(line, part).Some?
    ensures IsLabel(line[..LabelLength(line, part).value], part)
  {
    var n := LabelLength(line, part).value;
    var d := 1 + DigitRun(line[1..]);
    var s := line[..n];
    assert s[1..d] == line[1..][..d - 1];
    assert s[d + 1..] == line[d + 1..][..LeadingSpace(line[d + 1..])];
    assert s[d] == ')';
  }

  /** Every maximal match of the pattern is found: the regular expression has one answer. */
  lemma LabelLengthComplete(line: string, part: char, n: nat)
    requires n <= |line| && IsLabel(line[..n], part)
    requires n == |line| || !IsWhiteSpace(line[n])
    ensures LabelLength(line, part) == Some(n)
  {
    var s := line[..n];
    var d :| 1 <= d < |s| && s[d] == ')' && s[0] == part && AllDigits(s[1..d]) && AllWhiteSpace(s[d + 1..]);
    LabelDigits(line, n, d);
    LabelSpaces(line, n, d);
    LabelLengthAt(line, part, d);
  }

  lemma LabelDigits(line: string, n: nat, d: nat)
    requires 1 <= d < n <= |line| && line[..n][d] == ')' && AllDigits(line[..n][1..d])
    ensures DigitRun(line[1..]) == d - 1
  {
    PrefixSlice(line, n, 1, d);
    SliceOfSuffix(line, 1, d - 1);
    assert line[1..][d - 1] == line[d];
    DigitRunStops(line[1..], d - 1);
  }

  lemma LabelSpaces(line: string, n: nat, d: nat)
    requires d < n <= |line| && AllWhiteSpace(line[..n][d + 1..])
    requires n == |line| || !IsWhiteSpace(line[n])
    ensures LeadingSpace(line[d + 1..]) == n - d - 1
  {
    PrefixSlice(line, n, d + 1, n);
    SliceOfSuffix(line, d + 1, n - d - 1);
    assert n == |line| || line[d + 1..][n - d - 1] == line[n];
    SpaceRunStops(line[d + 1..], n - d - 1);
  }

  lemma LabelLengthAt(line: string, part: char, d: nat)
    requires 1 <= d < |line| && line[0] == part && DigitRun(line[1..]) == d - 1 && line[d] == ')'
    ensures LabelLength(line, part) == Some(d + 1 + LeadingSpace(line[d + 1..]))
  {
  }

  lemma {:induction false} DigitRunStops(s: string, k: nat)
    requires k < |s| && AllDigits(s[..k]) && !IsDigit(s[k])
    ensures DigitRun(s) == k
  {
    if k > 0 {
      assert s[1..][..k - 1] == s[..k][1..];
      DigitRunStops(s[1..], k - 1);
    }
  }

  lemma {:induction false} SpaceRunStops(s: string, k: nat)
    requires k <= |s| && AllWhiteSpace(s[..k]) && (k == |s| || !IsWhiteSpace(s[k]))
    ensures LeadingSpace(s) == k
  {
    if k > 0 {
      assert s[1..][..k - 1] == s[..k][1..];
      SpaceRunStops(s[1..], k - 1);
    }
  }

  /** `line.replace` of the pattern `^a\d*\)\s*` by '' for part a, likewise for b: drops the label when there is one. */
  function StripPartLabel(line: string, part: char): (r: string)
    ensures |r| <= |line|
  {
    match LabelLength(line, part)
    case Some(n) => line[n..]
    case None => line
  }

  /** Stripping keeps a suffix of the line, and what it drops is a whole label, or nothing. */
  lemma StripDropsLabel(line: string, part: char)
    ensures StripPartLabel(line, part) == line[|line| - |StripPartLabel(line, part)|..]
    ensures |StripPartLabel(line, part)| == |line| || IsLabel(line[..|line| - |StripPartLabel(line, part)|], part)
  {
    match LabelLength(line, part)
    case Some(n) =>
      LabelLengthSound(line, part);
      assert StripPartLabel(line, part) == line[n..];
      assert |line| - |line[n..]| == n;
    case None =>
      assert StripPartLabel(line, part) == line;
      assert line[0..] == line;
  }

  /** The text of a sub-question line: the label dropped, then trimmed. */
  function QuestionText(line: string, part: char): (r: string)
    ensures |r| <= |line|
    ensures r == [] || (!IsWhiteSpace(r[0]) && !IsWhiteSpace(r[|r| - 1]))
  {
    var s := StripPartLabel(line, part);
    TrimKeepsMiddle(s);
    TrimmedEdges(s);
    Trim(s)
  }

  /** A line in the requested layout gives back exactly the text written after its label. */
  lemma QuestionTextOfLabelled(part: char, digits: string, spaces: string, text: string)
    requires AllDigits(digits) && AllWhiteSpace(spaces)
    requires text == [] || !IsWhiteSpace(text[0])
    ensures QuestionText([part] + digits + [')'] + spaces + text, part) == Trim(text)
  {
    var line := [part] + digits + [')'] + spaces + text;
    var n := |digits| + 2 + |spaces|;
    var d := |digits| + 1;
    assert line[..n][1..d] == digits;
    assert line[..n][d + 1..] == spaces;
    assert line[..n][d] == ')';
    LabelLengthComplete(line, part, n);
    assert line[n..] == text;
  }

  /** A line without a closing parenthesis keeps all of its text and is only trimmed. */
  lemma UnlabelledKeptWhole(line: string, part: char)
    requires ')' !in line
    ensures QuestionText(line, part) == Trim(line)
  {
    if StartsWith(line, part) {
      var d := 1 + DigitRun(line[1..]);
      if d < |line| {
        assert line[d] in line;
      }
    }
    assert LabelLength(line, part) == None;
  }
}
