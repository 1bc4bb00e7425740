/**
 * The reply layout the prompt asks the generator for,
 *
 *   Q<k>:
 *   a1) ...
 *   a2) ...
 *   b1) ...
 *   b2) ...
 *
 * and the round trip: a reply written exactly in that layout is parsed back
 * into four records per question carrying the texts that were written.
 */
module Layout {
  import opened JsString
  import opened Taxonomy
  import opened Allocation
  import opened Parser
  import opened Assembler

  /** The four sub-question texts of one question, in layout order a1, a2, b1, b2. */
  datatype PaperQuestion = PaperQuestion(a1: string, a2: string, b1: string, b2: string)

  function TextAt(p: PaperQuestion, j: nat): string
    requires j < 4
  {
    if j == 0 then p.a1 else if j == 1 then p.a2 else if j == 2 then p.b1 else p.b2
  }

  /** A text that neither starts a new question nor breaks the line. */
  predicate Unbroken(t: string)
  {
    'Q' !in t && '\n' !in t
  }

  /** A sub-question text the layout can carry: one non-empty line, free of 'Q', not padded. */
  predicate PlainText(t: string)
  {
    |t| > 0 && Unbroken(t) && !IsWhiteSpace(t[0]) && !IsWhiteSpace(t[|t| - 1])
  }

  predicate PlainQuestion(p: PaperQuestion)
  {
    PlainText(p.a1) && PlainText(p.a2) && PlainText(p.b1) && PlainText(p.b2)
  }

  predicate UnbrokenQuestion(p: PaperQuestion)
  {
    Unbroken(p.a1) && Unbroken(p.a2) && Unbroken(p.b1) && Unbroken(p.b2)
  }

  /** The heading line of question k (0-based): its number and a colon. */
  function Heading(k: nat): string
  {
    NatToString(k + 1) + ":"
  }

  /** A labelled line such as `a1) text`. */
  function Line(part: char, digit: char, t: string): string
  {
    [part, digit, ')', ' '] + t
  }

  function LabelledLines(p: PaperQuestion): seq<string>
  {
    [Line('a', '1', p.a1), Line('a', '2', p.a2), Line('b', '1', p.b1), Line('b', '2', p.b2)]
  }

  /** The lines of question k (0-based) before they are joined with line breaks. */
  function BlockLines(k: nat, p: PaperQuestion): seq<string>
  {
    [Heading(k)] + LabelledLines(p) + [""]
  }

  /** The six lines of a block, written out. */
  lemma BlockLinesListed(k: nat, p: PaperQuestion)
    ensures BlockLines(k, p) == [Heading(k), Line('a', '1', p.a1), Line('a', '2', p.a2), Line('b', '1', p.b1), Line('b', '2', p.b2), ""]
  {
  }

  /** The text of question k that follows its 'Q'. */
  function BlockText(k: nat, p: PaperQuestion): string
  {
    Join(BlockLines(k, p), '\n')
  }

  /** Questions k, k+1, ... of a paper, each written as 'Q' and its block. */
  function RenderFrom(paper: seq<PaperQuestion>, k: nat): string
  {
    if |paper| == 0 then "" else "Q" + BlockText(k, paper[0]) + RenderFrom(paper[1..], k + 1)
  }

  function BlocksFrom(paper: seq<PaperQuestion>, k: nat): (r: seq<string>)
    ensures |r| == |paper|
    ensures forall i :: 0 <= i < |r| ==> r[i] == BlockText(k + i, paper[i])
  {
    if |paper| == 0 then [] else [BlockText(k, paper[0])] + BlocksFrom(paper[1..], k + 1)
  }

  /** The whole reply in the requested layout. */
  function Render(paper: seq<PaperQuestion>): string
  {
    RenderFrom(paper, 0)
  }

  lemma {:induction false} RenderIsJoin(paper: seq<PaperQuestion>, k: nat)
    ensures RenderFrom(paper, k) == Join([""] + BlocksFrom(paper, k), 'Q')
  {
    if |paper| > 0 {
      RenderIsJoin(paper[1..], k + 1);
      var b := BlockText(k, paper[0]);
      var bs := BlocksFrom(paper[1..], k + 1);
      assert BlocksFrom(paper, k) == [b] + bs;
      JoinAfterEmpty(b, bs, 'Q');
    }
  }

  /** One more piece after the leading empty one adds a separator and the piece. */
  lemma JoinAfterEmpty(b: string, bs: seq<string>, sep: char)
    ensures Join([""] + ([b] + bs), sep) == [sep] + b + Join([""] + bs, sep)
  {
    assert ([""] + ([b] + bs))[1..] == [b] + bs;
    assert ([b] + bs)[1..] == bs;
    if |bs| > 0 {
      assert ([""] + bs)[1..] == bs;
    }
  }

  lemma NoQInDigits(s: string)
    requires AllDigits(s)
    ensures 'Q' !in s && '\n' !in s
  {
    forall i | 0 <= i < |s|
      ensures s[i] != 'Q' && s[i] != '\n'
    {
      assert IsDigit(s[i]);
    }
  }

  predicate AllUnbroken(lines: seq<string>)
  {
    forall i :: 0 <= i < |lines| ==> Unbroken(lines[i])
  }

  lemma SixUnbroken(a: string, b: string, c: string, d: string, e: string, f: string)
    requires Unbroken(a) && Unbroken(b) && Unbroken(c) && Unbroken(d) && Unbroken(e) && Unbroken(f)
    ensures AllUnbroken([a, b, c, d, e, f])
  {
  }

  lemma BlockLinesFree(k: nat, p: PaperQuestion)
    requires UnbrokenQuestion(p)
    ensures AllUnbroken(BlockLines(k, p))
  {
    HeadingPlain(k);
    LineFree('a', '1', p.a1);
    LineFree('a', '2', p.a2);
    LineFree('b', '1', p.b1);
    LineFree('b', '2', p.b2);
    SixUnbroken(Heading(k), Line('a', '1', p.a1), Line('a', '2', p.a2), Line('b', '1', p.b1), Line('b', '2', p.b2), "");
  }

  lemma LineFree(part: char, digit: char, t: string)
    requires part != 'Q' && part != '\n' && IsDigit(digit) && Unbroken(t)
    ensures Unbroken(Line(part, digit, t))
  {
  }

  lemma {:induction false} JoinFree(parts: seq<string>, sep: char, c: char)
    requires c != sep
    requires forall i :: 0 <= i < |parts| ==> c !in parts[i]
    ensures c !in Join(parts, sep)
  {
    if |parts| > 1 {
      JoinFree(parts[1..], sep, c);
    }
  }

  /** A block of the layout contains no 'Q' and starts with a digit, so it is not blank. */
  lemma BlockTextPlain(k: nat, p: PaperQuestion)
    requires UnbrokenQuestion(p)
    ensures 'Q' !in BlockText(k, p) && !IsBlank(BlockText(k, p))
  {
    BlockLinesFree(k, p);
    UnbrokenLines(BlockLines(k, p));
    JoinFree(BlockLines(k, p), '\n', 'Q');
    var h := NatToString(k + 1);
    assert BlockText(k, p)[0] == Heading(k)[0] == h[0];
    NotBlankByHead(BlockText(k, p));
  }

  lemma {:induction false} DropBlankKeepsAll(parts: seq<string>)
    requires forall i :: 0 <= i < |parts| ==> !IsBlank(parts[i])
    ensures DropBlank(parts) == parts
  {
    if |parts| > 0 {
      DropBlankKeepsAll(parts[1..]);
    }
  }

  /** Blocks free of 'Q' and not blank, each written after a 'Q', split back into the same blocks. */
  lemma SplitBlocks(bs: seq<string>)
    requires forall i :: 0 <= i < |bs| ==> 'Q' !in bs[i] && !IsBlank(bs[i])
    ensures DropBlank(Split(Join([""] + bs, 'Q'), 'Q')) == bs
  {
    FreeAfterEmpty(bs, 'Q');
    SplitJoin([""] + bs, 'Q');
    DropLeadingEmpty(bs);
    DropBlankKeepsAll(bs);
  }

  lemma FreeAfterEmpty(bs: seq<string>, c: char)
    requires forall i :: 0 <= i < |bs| ==> c !in bs[i]
    ensures forall i :: 0 <= i < |[""] + bs| ==> c !in ([""] + bs)[i]
  {
    forall i | 0 <= i < |[""] + bs|
      ensures c !in ([""] + bs)[i]
    {
      if i > 0 {
        assert ([""] + bs)[i] == bs[i - 1];
      }
    }
  }

  lemma DropLeadingEmpty(bs: seq<string>)
    ensures DropBlank([""] + bs) == DropBlank(bs)
  {
    assert ([""] + bs)[1..] == bs;
    assert IsBlank("");
  }

  /** The reply splits into exactly one block per question, in order. */
  lemma RenderBlocks(paper: seq<PaperQuestion>)
    requires forall i :: 0 <= i < |paper| ==> UnbrokenQuestion(paper[i])
    ensures QuestionBlocks(Render(paper)) == BlocksFrom(paper, 0)
  {
    var bs := BlocksFrom(paper, 0);
    RenderIsJoin(paper, 0);
    forall i | 0 <= i < |bs|
      ensures 'Q' !in bs[i] && !IsBlank(bs[i])
    {
      BlockTextPlain(i, paper[i]);
    }
    SplitBlocks(bs);
  }

  lemma HeadingPlain(k: nat)
    ensures !IsBlank(Heading(k)) && !StartsWith(Heading(k), 'a') && !StartsWith(Heading(k), 'b')
    ensures Unbroken(Heading(k))
  {
    var h := NatToString(k + 1);
    NoQInDigits(h);
    assert Heading(k)[0] == h[0];
    NotBlankByHead(Heading(k));
  }

  lemma LinePlain(part: char, digit: char, t: string)
    requires part == 'a' || part == 'b'
    ensures !IsBlank(Line(part, digit, t)) && StartsWith(Line(part, digit, t), part)
  {
    NotBlankByHead(Line(part, digit, t));
  }

  lemma UnbrokenLines(lines: seq<string>)
    requires AllUnbroken(lines)
    ensures forall i :: 0 <= i < |lines| ==> '\n' !in lines[i] && 'Q' !in lines[i]
  {
    forall i | 0 <= i < |lines|
      ensures '\n' !in lines[i] && 'Q' !in lines[i]
    {
      assert Unbroken(lines[i]);
    }
  }

  /** Non-blank lines followed by one empty line, joined and split again, leave the non-blank lines. */
  lemma DropTrailingBlank(lines: seq<string>)
    requires AllUnbroken(lines + [""])
    requires forall i :: 0 <= i < |lines| ==> !IsBlank(lines[i])
    ensures DropBlank(Split(Join(lines + [""], '\n'), '\n')) == lines
  {
    UnbrokenLines(lines + [""]);
    SplitJoin(lines + [""], '\n');
    DropBlankKeepsAll(lines);
    DropBlankAppend(lines, [""]);
    assert IsBlank("");
    assert DropBlank([""]) == [];
  }

  /** Splitting the joined lines of a block at line breaks and dropping blank lines gives back its five lines. */
  lemma SixLines(h: string, a1: string, a2: string, b1: string, b2: string)
    requires AllUnbroken([h, a1, a2, b1, b2, ""])
    requires !IsBlank(h) && !IsBlank(a1) && !IsBlank(a2) && !IsBlank(b1) && !IsBlank(b2)
    ensures DropBlank(Split(Join([h, a1, a2, b1, b2, ""], '\n'), '\n')) == [h, a1, a2, b1, b2]
  {
    var five := [h, a1, a2, b1, b2];
    assert [h, a1, a2, b1, b2, ""] == five + [""];
    forall i | 0 <= i < |five|
      ensures !IsBlank(five[i])
    {
      if i == 0 {
        assert five[i] == h;
      } else if i == 1 {
        assert five[i] == a1;
      } else if i == 2 {
        assert five[i] == a2;
      } else if i == 3 {
        assert five[i] == b1;
      } else {
        assert five[i] == b2;
      }
    }
    DropTrailingBlank(five);
  }

  /** The lines of one block: the heading and the four labelled lines; the empty last line is dropped. */
  lemma BlockSubQuestions(k: nat, p: PaperQuestion)
    requires UnbrokenQuestion(p)
    ensures SubQuestions(BlockText(k, p)) == [Heading(k)] + LabelledLines(p)
  {
    BlockLinesListed(k, p);
    BlockLinesFree(k, p);
    HeadingPlain(k);
    LinePlain('a', '1', p.a1);
    LinePlain('a', '2', p.a2);
    LinePlain('b', '1', p.b1);
    LinePlain('b', '2', p.b2);
    SixLines(Heading(k), Line('a', '1', p.a1), Line('a', '2', p.a2), Line('b', '1', p.b1), Line('b', '2', p.b2));
  }

  lemma PartLinesPair(x: string, y: string, part: char)
    requires StartsWith(x, part) == StartsWith(y, part)
    ensures PartLines([x, y], part) == if StartsWith(x, part) then [x, y] else []
  {
    assert [x, y][1..] == [y];
    assert [y][1..] == [];
  }

  /** Of a heading and two a-lines and two b-lines, part a takes the a-lines and part b the b-lines. */
  lemma FiveLineParts(h: string, a1: string, a2: string, b1: string, b2: string)
    requires !StartsWith(h, 'a') && !StartsWith(h, 'b')
    requires StartsWith(a1, 'a') && StartsWith(a2, 'a') && StartsWith(b1, 'b') && StartsWith(b2, 'b')
    ensures PartLines([h, a1, a2, b1, b2], 'a') == [a1, a2]
    ensures PartLines([h, a1, a2, b1, b2], 'b') == [b1, b2]
  {
    assert StartsWith(a1, 'a') != StartsWith(a1, 'b');
    assert StartsWith(b1, 'a') != StartsWith(b1, 'b');
    assert [h, a1, a2, b1, b2] == [h] + ([a1, a2] + [b1, b2]);
    assert [h][1..] == [];
    PartLinesAppend([h], [a1, a2] + [b1, b2], 'a');
    PartLinesAppend([h], [a1, a2] + [b1, b2], 'b');
    PartLinesAppend([a1, a2], [b1, b2], 'a');
    PartLinesAppend([a1, a2], [b1, b2], 'b');
    PartLinesPair(a1, a2, 'a');
    PartLinesPair(a1, a2, 'b');
    PartLinesPair(b1, b2, 'a');
    PartLinesPair(b1, b2, 'b');
  }

  /** The part-a lines are the two a-labelled lines and the part-b lines the two b-labelled ones. */
  lemma BlockParts(k: nat, p: PaperQuestion)
    requires UnbrokenQuestion(p)
    ensures PartLines(SubQuestions(BlockText(k, p)), 'a') == [Line('a', '1', p.a1), Line('a', '2', p.a2)]
    ensures PartLines(SubQuestions(BlockText(k, p)), 'b') == [Line('b', '1', p.b1), Line('b', '2', p.b2)]
  {
    BlockSubQuestions(k, p);
    HeadingPlain(k);
    LinePlain('a', '1', p.a1);
    LinePlain('a', '2', p.a2);
    LinePlain('b', '1', p.b1);
    LinePlain('b', '2', p.b2);
    FiveLineParts(Heading(k), Line('a', '1', p.a1), Line('a', '2', p.a2), Line('b', '1', p.b1), Line('b', '2', p.b2));
  }

  lemma PlainTextOfLine(part: char, digit: char, t: string)
    requires IsDigit(digit) && PlainText(t)
    ensures QuestionText(Line(part, digit, t), part) == t
  {
    assert [part, digit, ')', ' '] + t == [part] + [digit] + [')'] + [' '] + t;
    QuestionTextOfLabelled(part, [digit], [' '], t);
    TrimUntouched(t);
  }

  /** The four records of question k: parts a, a, b, b, sub-parts 1, 2, 1, 2, texts a1, a2, b1, b2. */
  predicate BlockLaidOut(y: seq<Question>, k: nat, p: PaperQuestion)
  {
    |y| == 4 &&
    forall j :: 0 <= j < 4 ==>
      && y[j].questionNumber == k + 1
      && y[j].questionPart == (if j < 2 then 'a' else 'b')
      && y[j].subPart == j % 2 + 1
      && y[j].questionText == TextAt(p, j)
  }

  /** Records made from two part-a texts and two part-b texts are laid out as a1, a2, b1, b2. */
  lemma FourFromShape(k: nat, r: seq<Question>, p: PaperQuestion)
    requires BlockMadeFrom(r, k, [p.a1, p.a2], [p.b1, p.b2])
    ensures BlockLaidOut(r, k, p)
  {
    var ta := [p.a1, p.a2];
    var tb := [p.b1, p.b2];
    forall j | 0 <= j < 4
      ensures && r[j].questionNumber == k + 1
              && r[j].questionPart == (if j < 2 then 'a' else 'b')
              && r[j].subPart == j % 2 + 1
              && r[j].questionText == TextAt(p, j)
    {
      BlockMadeFromAt(r, k, ta, tb, j);
      if j == 0 {
        assert ta[0] == p.a1;
      } else if j == 1 {
        assert ta[1] == p.a2;
      } else if j == 2 {
        assert tb[0] == p.b1;
      } else {
        assert tb[1] == p.b2;
      }
    }
  }

  lemma PartTextsPair(x: string, y: string, part: char)
    ensures PartTexts([x, y], part) == [QuestionText(x, part), QuestionText(y, part)]
  {
    assert [x, y] == [x] + [y];
    assert [x] == [] + [x];
    PartTextsSnoc([], x, part);
    PartTextsSnoc([x], y, part);
  }

  /** The stripped texts of the two parts of a laid-out block are exactly the written texts. */
  lemma BlockTexts(k: nat, p: PaperQuestion)
    requires PlainQuestion(p)
    ensures PartTexts(PartLines(SubQuestions(BlockText(k, p)), 'a'), 'a') == [p.a1, p.a2]
    ensures PartTexts(PartLines(SubQuestions(BlockText(k, p)), 'b'), 'b') == [p.b1, p.b2]
  {
    assert UnbrokenQuestion(p);
    BlockParts(k, p);
    PartTextsPair(Line('a', '1', p.a1), Line('a', '2', p.a2), 'a');
    PartTextsPair(Line('b', '1', p.b1), Line('b', '2', p.b2), 'b');
    PlainTextOfLine('a', '1', p.a1);
    PlainTextOfLine('a', '2', p.a2);
    PlainTextOfLine('b', '1', p.b1);
    PlainTextOfLine('b', '2', p.b2);
  }

  /** One block of the layout gives four records: a1, a2, b1, b2, with exactly the written texts. */
  lemma BlockRecords(k: nat, p: PaperQuestion, alloc: seq<Allocation>)
    requires PlainQuestion(p) && ValidAllocation(alloc)
    ensures BlockLaidOut(BlockQuestions(k, BlockText(k, p), alloc), k, p)
  {
    BlockQuestionsShape(k, BlockText(k, p), alloc);
    BlockTexts(k, p);
    FourFromShape(k, BlockQuestions(k, BlockText(k, p), alloc), p);
  }

  /** Record k is sub-question k mod 4 of question k / 4. */
  predicate LaidOut(r: seq<Question>, paper: seq<PaperQuestion>)
  {
    |r| == 4 * |paper| &&
    forall k :: 0 <= k < |r| ==>
      && r[k].questionNumber == k / 4 + 1
      && r[k].questionPart == (if k % 4 < 2 then 'a' else 'b')
      && r[k].subPart == k % 2 + 1
      && r[k].questionText == TextAt(paper[k / 4], k % 4)
  }

  lemma {:induction false} RecordsLaidOut(blocks: seq<string>, paper: seq<PaperQuestion>, alloc: seq<Allocation>)
    requires ValidAllocation(alloc) && |blocks| == |paper|
    requires forall i :: 0 <= i < |paper| ==> PlainQuestion(paper[i]) && blocks[i] == BlockText(i, paper[i])
    ensures LaidOut(Records(blocks, alloc), paper)
  {
    var n := |blocks|;
    if n > 0 {
      RecordsLaidOut(blocks[..n - 1], paper[..n - 1], alloc);
      BlockRecords(n - 1, paper[n - 1], alloc);
      LaidOutAppend(Records(blocks[..n - 1], alloc), BlockQuestions(n - 1, blocks[n - 1], alloc), paper);
    }
  }

  lemma DivMod4(q: nat, j: nat)
    requires j < 4
    ensures (4 * q + j) / 4 == q && (4 * q + j) % 4 == j && (4 * q + j) % 2 == j % 2
  {
  }

  lemma LaidOutAppend(x: seq<Question>, y: seq<Question>, paper: seq<PaperQuestion>)
    requires |paper| > 0 && LaidOut(x, paper[..|paper| - 1]) && BlockLaidOut(y, |paper| - 1, paper[|paper| - 1])
    ensures LaidOut(x + y, paper)
  {
    var n := |paper|;
    var r := x + y;
    forall k | 0 <= k < |r|
      ensures && r[k].questionNumber == k / 4 + 1
              && r[k].questionPart == (if k % 4 < 2 then 'a' else 'b')
              && r[k].subPart == k % 2 + 1
              && r[k].questionText == TextAt(paper[k / 4], k % 4)
    {
      if k < |x| {
        assert r[k] == x[k];
        assert paper[..n - 1][k / 4] == paper[k / 4];
      } else {
        var j := k - |x|;
        assert r[k] == y[j];
        DivMod4(n - 1, j);
      }
    }
  }

  /**
   * The round trip of the layout: parsing a reply written exactly as the
   * prompt asks gives four records per question, numbered 1..n, parts a, a,
   * b, b with sub-parts 1, 2, 1, 2, and the texts that were written.
   */
  lemma RenderRoundTrip(paper: seq<PaperQuestion>, alloc: seq<Allocation>)
    requires ValidAllocation(alloc)
    requires forall i :: 0 <= i < |paper| ==> PlainQuestion(paper[i])
    ensures |QuestionBlocks(Render(paper))| == |paper|
    ensures LaidOut(Records(QuestionBlocks(Render(paper)), alloc), paper)
  {
    forall i | 0 <= i < |paper|
      ensures UnbrokenQuestion(paper[i])
    {
      assert PlainQuestion(paper[i]);
    }
    RenderBlocks(paper);
    RecordsLaidOut(BlocksFrom(paper, 0), paper, alloc);
  }

  /** Reconciliation changes no field but the first record's marks, so the layout of the records survives it. */
  lemma LaidOutReconciled(r: seq<Question>, paper: seq<PaperQuestion>, marks: int)
    requires LaidOut(r, paper) && Reconcile(r, marks).Some?
    ensures LaidOut(Reconcile(r, marks).value, paper)
  {
    var e := Reconcile(r, marks).value;
    forall k | 0 <= k < |e|
      ensures && e[k].questionNumber == k / 4 + 1
              && e[k].questionPart == (if k % 4 < 2 then 'a' else 'b')
              && e[k].subPart == k % 2 + 1
              && e[k].questionText == TextAt(paper[k / 4], k % 4)
    {
      if k == 0 {
        assert e[0] == r[0].(marks := e[0].marks);
      } else {
        assert e[k] == r[k];
      }
    }
  }

  /**
   * What the handler emits for records `r` and total `marks`: a failure only
   * for an empty paper; otherwise records that keep the layout and add up to
   * the total, and, for a non-negative total, whose marks after the first are
   * non-negative.
   */
  predicate EmitsLaidOut(r: seq<Question>, paper: seq<PaperQuestion>, marks: int)
  {
    var e := Reconcile(r, marks);
    && (e.Some? <==> |paper| > 0 || marks == 0)
    && (e.Some? ==> LaidOut(e.value, paper) && SumMarks(e.value) == marks as real)
    && (e.Some? && marks >= 0 ==> forall k :: 1 <= k < |e.value| ==> e.value[k].marks >= 0.0)
  }

  /**
   * Reconciling laid-out records of whole hundredths, none negative when the
   * total is not, emits them laid out.
   */
  lemma ReconciledLayout(r: seq<Question>, paper: seq<PaperQuestion>, marks: int)
    requires LaidOut(r, paper)
    requires forall k :: 0 <= k < |r| ==> IsHundredths(r[k].marks)
    requires marks >= 0 ==> NoNegativeMarks(r)
    ensures EmitsLaidOut(r, paper, marks)
  {
    ReconcileExact(r, marks);
    if Reconcile(r, marks).Some? {
      LaidOutReconciled(r, paper, marks);
    }
  }

  /**
   * The round trip down to the list the handler emits: the records of a reply
   * in the layout, under the table of any mark total, are emitted laid out.
   */
  lemma EmittedRoundTrip(paper: seq<PaperQuestion>, totalMarks: int)
    requires forall i :: 0 <= i < |paper| ==> PlainQuestion(paper[i])
    ensures EmitsLaidOut(Records(QuestionBlocks(Render(paper)), AllocateMarks(totalMarks, DetermineQuestionCount(totalMarks))),
                         paper, totalMarks)
  {
    var n := DetermineQuestionCount(totalMarks);
    var alloc := AllocateMarks(totalMarks, n);
    var blocks := QuestionBlocks(Render(paper));
    AllocateMarksValid(totalMarks, n);
    RenderRoundTrip(paper, alloc);
    RecordsHundredths(blocks, alloc);
    RecordsMarksSign(blocks, totalMarks, n);
    ReconciledLayout(Records(blocks, alloc), paper, totalMarks);
  }
}
