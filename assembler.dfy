/**
 * Building the question records from the blocks of a reply, summing their
 * marks, and the reconciliation pass that puts the rounding difference on
 * the first record.
 */
module Assembler {
  import opened Wrappers
  import opened JsString
  import opened Taxonomy
  import opened Allocation
  import opened Parser

  /** One emitted sub-question. */
  datatype Question = Question(
    questionNumber: int,
    questionPart: char,
    subPart: int,
    questionText: string,
    marks: real,
    bloomLevel: string,
    bloomLevelDescription: string,
    bloomWeightage: real,
    course: string)

  /** The course tag `CO<n>` of the question at 0-based index `questionIndex`. */
  function CourseCode(questionIndex: nat): (c: string)
    ensures |c| >= 3 && c[..2] == "CO" && AllDigits(c[2..])
    ensures DigitsValue(c[2..]) == questionIndex + 1
    ensures c[2] != '0'
  {
    var c := "CO" + NatToString(questionIndex + 1);
    assert c[2..] == NatToString(questionIndex + 1);
    NatToStringValue(questionIndex + 1);
    c
  }

  /** Each question gets its own course tag. */
  lemma CourseCodeInjective(i: nat, j: nat)
    requires CourseCode(i) == CourseCode(j)
    ensures i == j
  {
    assert CourseCode(i)[2..] == NatToString(i + 1);
    assert CourseCode(j)[2..] == NatToString(j + 1);
    NatToStringInjective(i + 1, j + 1);
  }

  /** `assignBloomLevel` is called with 0 for part a and 1 for part b. */
  function PartSelector(part: char): nat
  {
    if part == 'a' then 0 else 1
  }

  /**
   * `marksAllocation.find(m => m.level === bloomData.bloomLevel).adjustedMarks`;
   * the look-up never fails on a valid table.
   */
  function LevelMarks(alloc: seq<Allocation>, questionIndex: nat, subPartIndex: nat): (m: real)
    requires ValidAllocation(alloc)
    ensures m == alloc[CycleIndex(questionIndex, subPartIndex)].adjustedMarks
  {
    FindAssigned(alloc, questionIndex, subPartIndex);
    FindLevel(alloc, AssignBloomLevel(questionIndex, subPartIndex).bloomLevel).value.adjustedMarks
  }

  /** The record made from the `subIndex`-th line of one part of one question. */
  function MakeQuestion(questionIndex: nat, part: char, subIndex: nat, line: string, alloc: seq<Allocation>): (r: Question)
    requires ValidAllocation(alloc)
    ensures var row := alloc[CycleIndex(questionIndex, PartSelector(part))];
            r.bloomLevel == row.level && r.bloomWeightage == row.weightage && r.marks == Round2(row.adjustedMarks)
  {
    var bloomData := AssignBloomLevel(questionIndex, PartSelector(part));
    Question(
      questionIndex + 1,
      part,
      subIndex + 1,
      QuestionText(line, part),
      Round2(LevelMarks(alloc, questionIndex, PartSelector(part))),
      bloomData.bloomLevel,
      bloomData.bloomLevelDescription,
      bloomData.bloomWeightage,
      CourseCode(questionIndex))
  }

  /** The level and the marks of a record depend on its question and its part, never on its line. */
  lemma LevelIgnoresLine(questionIndex: nat, part: char, i: nat, j: nat, x: string, y: string, alloc: seq<Allocation>)
    requires ValidAllocation(alloc)
    ensures var m := MakeQuestion(questionIndex, part, i, x, alloc);
            var n := MakeQuestion(questionIndex, part, j, y, alloc);
            m.bloomLevel == n.bloomLevel && m.marks == n.marks && m.bloomWeightage == n.bloomWeightage
  {
  }

  /** Record `m` belongs to line `subIndex` of part `part` of question `questionIndex` and carries `text`. */
  predicate MadeFrom(m: Question, questionIndex: nat, part: char, subIndex: nat, text: string)
  {
    && m.questionNumber == questionIndex + 1 && m.course == CourseCode(questionIndex)
    && m.questionPart == part && m.subPart == subIndex + 1
    && m.questionText == text
  }

  /** A record carries its question's number and course tag, its part, its 1-based sub-part and the stripped text. */
  lemma MakeQuestionFields(questionIndex: nat, part: char, subIndex: nat, line: string, alloc: seq<Allocation>)
    requires ValidAllocation(alloc)
    ensures MadeFrom(MakeQuestion(questionIndex, part, subIndex, line, alloc), questionIndex, part, subIndex,
                     QuestionText(line, part))
  {
  }

  /** The stripped texts of the lines of one part, in line order. */
  function PartTexts(lines: seq<string>, part: char): (r: seq<string>)
    ensures |r| == |lines|
    decreases |lines|
  {
    if |lines| == 0 then []
    else PartTexts(lines[..|lines| - 1], part) + [QuestionText(lines[|lines| - 1], part)]
  }

  /** Adding a line adds its stripped text at the end. */
  lemma PartTextsSnoc(lines: seq<string>, y: string, part: char)
    ensures PartTexts(lines + [y], part) == PartTexts(lines, part) + [QuestionText(y, part)]
  {
    assert (lines + [y])[..|lines|] == lines;
  }

  /** `questionParts[part].map((subQ, subIndex) => ...)`, written as a recursion on the last line. */
  function PartQuestions(questionIndex: nat, part: char, lines: seq<string>, alloc: seq<Allocation>): (r: seq<Question>)
    requires ValidAllocation(alloc)
    ensures |r| == |lines|
    decreases |lines|
  {
    if |lines| == 0 then []
    else
      var n := |lines| - 1;
      PartQuestions(questionIndex, part, lines[..n], alloc) + [MakeQuestion(questionIndex, part, n, lines[n], alloc)]
  }

  /** The records of one part: one per text, in order, record i carrying text i. */
  predicate PartMadeFrom(r: seq<Question>, questionIndex: nat, part: char, texts: seq<string>)
  {
    |r| == |texts| && forall i :: 0 <= i < |r| ==> MadeFrom(r[i], questionIndex, part, i, texts[i])
  }

  lemma PartMadeFromAppend(r: seq<Question>, m: Question, questionIndex: nat, part: char, texts: seq<string>, t: string)
    requires PartMadeFrom(r, questionIndex, part, texts)
    requires MadeFrom(m, questionIndex, part, |texts|, t)
    ensures PartMadeFrom(r + [m], questionIndex, part, texts + [t])
  {
    forall i | 0 <= i < |r| + 1
      ensures MadeFrom((r + [m])[i], questionIndex, part, i, (texts + [t])[i])
    {
      if i < |r| {
        assert (r + [m])[i] == r[i];
        assert (texts + [t])[i] == texts[i];
      } else {
        assert (r + [m])[i] == m;
        assert (texts + [t])[i] == t;
      }
    }
  }

  /** `questionParts[part].map(...)` makes record i from line i. */
  lemma {:induction false} PartQuestionsFields(questionIndex: nat, part: char, lines: seq<string>, alloc: seq<Allocation>)
    requires ValidAllocation(alloc)
    ensures PartMadeFrom(PartQuestions(questionIndex, part, lines, alloc), questionIndex, part, PartTexts(lines, part))
    decreases |lines|
  {
    if |lines| > 0 {
      var n := |lines| - 1;
      PartQuestionsFields(questionIndex, part, lines[..n], alloc);
      MakeQuestionFields(questionIndex, part, n, lines[n], alloc);
      PartMadeFromAppend(PartQuestions(questionIndex, part, lines[..n], alloc),
                         MakeQuestion(questionIndex, part, n, lines[n], alloc), questionIndex, part,
                         PartTexts(lines[..n], part), QuestionText(lines[n], part));
    }
  }

  /** The records of one block: those of its part-a lines, then those of its part-b lines. */
  function BlockQuestions(questionIndex: nat, block: string, alloc: seq<Allocation>): (r: seq<Question>)
    requires ValidAllocation(alloc)
    ensures |r| == LabelledCount(SubQuestions(block))
  {
    var lines := SubQuestions(block);
    PartLinesCount(lines);
    PartQuestions(questionIndex, 'a', PartLines(lines, 'a'), alloc) +
    PartQuestions(questionIndex, 'b', PartLines(lines, 'b'), alloc)
  }

  /** The records of all blocks, in block order, before reconciliation. */
  function Records(blocks: seq<string>, alloc: seq<Allocation>): seq<Question>
    requires ValidAllocation(alloc)
    decreases |blocks|
  {
    if |blocks| == 0 then []
    else Records(blocks[..|blocks| - 1], alloc) + BlockQuestions(|blocks| - 1, blocks[|blocks| - 1], alloc)
  }

  /** The records of a block: those carrying the part-a texts, then those carrying the part-b texts. */
  predicate BlockMadeFrom(r: seq<Question>, questionIndex: nat, ta: seq<string>, tb: seq<string>)
  {
    && |r| == |ta| + |tb|
    && PartMadeFrom(r[..|ta|], questionIndex, 'a', ta)
    && PartMadeFrom(r[|ta|..], questionIndex, 'b', tb)
  }

  /**
   * Inside one block: the part-a records come first, one per part-a line in
   * order, each carrying the block's number and course tag, sub-parts
   * 1, 2, ... and the line's stripped text; then the part-b records likewise.
   */
  lemma BlockQuestionsShape(questionIndex: nat, block: string, alloc: seq<Allocation>)
    requires ValidAllocation(alloc)
    ensures BlockMadeFrom(BlockQuestions(questionIndex, block, alloc), questionIndex,
                          PartTexts(PartLines(SubQuestions(block), 'a'), 'a'),
                          PartTexts(PartLines(SubQuestions(block), 'b'), 'b'))
  {
    var la := PartLines(SubQuestions(block), 'a');
    var lb := PartLines(SubQuestions(block), 'b');
    var pa := PartQuestions(questionIndex, 'a', la, alloc);
    var pb := PartQuestions(questionIndex, 'b', lb, alloc);
    PartQuestionsFields(questionIndex, 'a', la, alloc);
    PartQuestionsFields(questionIndex, 'b', lb, alloc);
    assert (pa + pb)[..|la|] == pa;
    assert (pa + pb)[|la|..] == pb;
  }

  /** Record k of a block is record k of its part a, or record k - |ta| of its part b. */
  lemma BlockMadeFromAt(r: seq<Question>, questionIndex: nat, ta: seq<string>, tb: seq<string>, k: nat)
    requires BlockMadeFrom(r, questionIndex, ta, tb) && k < |r|
    ensures k < |ta| ==> MadeFrom(r[k], questionIndex, 'a', k, ta[k])
    ensures k >= |ta| ==> MadeFrom(r[k], questionIndex, 'b', k - |ta|, tb[k - |ta|])
  {
    if k < |ta| {
      assert r[k] == r[..|ta|][k];
    } else {
      assert r[k] == r[|ta|..][k - |ta|];
    }
  }

  /** Every record carries number questionIndex + 1 and the course tag of that question. */
  predicate AllNumbered(r: seq<Question>, questionIndex: nat)
  {
    forall k :: 0 <= k < |r| ==> r[k].questionNumber == questionIndex + 1 && r[k].course == CourseCode(questionIndex)
  }

  lemma BlockMadeFromNumbered(r: seq<Question>, questionIndex: nat, ta: seq<string>, tb: seq<string>)
    requires BlockMadeFrom(r, questionIndex, ta, tb)
    ensures AllNumbered(r, questionIndex)
  {
    forall k | 0 <= k < |r|
      ensures r[k].questionNumber == questionIndex + 1 && r[k].course == CourseCode(questionIndex)
    {
      BlockMadeFromAt(r, questionIndex, ta, tb, k);
    }
  }

  lemma BlockMadeFromOrdered(r: seq<Question>, questionIndex: nat, ta: seq<string>, tb: seq<string>)
    requires BlockMadeFrom(r, questionIndex, ta, tb)
    ensures forall i, j :: 0 <= i < j < |r| && r[i].questionPart == 'b' ==> r[j].questionPart == 'b'
  {
    forall i, j | 0 <= i < j < |r| && r[i].questionPart == 'b'
      ensures r[j].questionPart == 'b'
    {
      BlockMadeFromAt(r, questionIndex, ta, tb, i);
      BlockMadeFromAt(r, questionIndex, ta, tb, j);
    }
  }

  /** Within a block no part-a record follows a part-b record. */
  lemma BlockPartsOrdered(questionIndex: nat, block: string, alloc: seq<Allocation>)
    requires ValidAllocation(alloc)
    ensures var r := BlockQuestions(questionIndex, block, alloc);
            forall i, j :: 0 <= i < j < |r| && r[i].questionPart == 'b' ==> r[j].questionPart == 'b'
  {
    BlockQuestionsShape(questionIndex, block, alloc);
    BlockMadeFromOrdered(BlockQuestions(questionIndex, block, alloc), questionIndex,
                         PartTexts(PartLines(SubQuestions(block), 'a'), 'a'),
                         PartTexts(PartLines(SubQuestions(block), 'b'), 'b'));
  }

  /** Every record of a block carries the block's number and course tag. */
  lemma BlockNumbered(questionIndex: nat, block: string, alloc: seq<Allocation>)
    requires ValidAllocation(alloc)
    ensures AllNumbered(BlockQuestions(questionIndex, block, alloc), questionIndex)
  {
    BlockQuestionsShape(questionIndex, block, alloc);
    BlockMadeFromNumbered(BlockQuestions(questionIndex, block, alloc), questionIndex,
                          PartTexts(PartLines(SubQuestions(block), 'a'), 'a'),
                         PartTexts(PartLines(SubQuestions(block), 'b'), 'b'));
  }

  /**
   * A record agrees with the table: the look-up of its level succeeds and its
   * description, weight and marks are those of the entry found, the marks
   * rounded to two decimals.
   */
  predicate RecordAgrees(q: Question, alloc: seq<Allocation>)
  {
    var f := FindLevel(alloc, q.bloomLevel);
    && f.Some?
    && q.bloomLevelDescription == f.value.code
    && q.bloomWeightage == f.value.weightage
    && q.marks == Round2(f.value.adjustedMarks)
  }

  /** A record's description, weightage and marks are those of its level's row. */
  lemma MakeQuestionAgrees(questionIndex: nat, part: char, subIndex: nat, line: string, alloc: seq<Allocation>)
    requires ValidAllocation(alloc)
    ensures RecordAgrees(MakeQuestion(questionIndex, part, subIndex, line, alloc), alloc)
  {
    FindAssigned(alloc, questionIndex, PartSelector(part));
  }

  lemma {:induction false} PartQuestionsAgree(questionIndex: nat, part: char, lines: seq<string>, alloc: seq<Allocation>)
    requires ValidAllocation(alloc)
    ensures forall q :: q in PartQuestions(questionIndex, part, lines, alloc) ==> RecordAgrees(q, alloc)
    decreases |lines|
  {
    if |lines| > 0 {
      var n := |lines| - 1;
      PartQuestionsAgree(questionIndex, part, lines[..n], alloc);
      MakeQuestionAgrees(questionIndex, part, n, lines[n], alloc);
    }
  }

  lemma BlockQuestionsAgree(questionIndex: nat, block: string, alloc: seq<Allocation>)
    requires ValidAllocation(alloc)
    ensures forall q :: q in BlockQuestions(questionIndex, block, alloc) ==> RecordAgrees(q, alloc)
  {
    PartQuestionsAgree(questionIndex, 'a', PartLines(SubQuestions(block), 'a'), alloc);
    PartQuestionsAgree(questionIndex, 'b', PartLines(SubQuestions(block), 'b'), alloc);
  }

  /** Every record before reconciliation agrees with the table. */
  lemma {:induction false} RecordsAgree(blocks: seq<string>, alloc: seq<Allocation>)
    requires ValidAllocation(alloc)
    ensures forall q :: q in Records(blocks, alloc) ==> RecordAgrees(q, alloc)
  {
    if |blocks| > 0 {
      RecordsAgree(blocks[..|blocks| - 1], alloc);
      BlockQuestionsAgree(|blocks| - 1, blocks[|blocks| - 1], alloc);
    }
  }

  /** Marks of every record are whole hundredths. */
  lemma {:induction false} RecordsHundredths(blocks: seq<string>, alloc: seq<Allocation>)
    requires ValidAllocation(alloc)
    ensures forall k :: 0 <= k < |Records(blocks, alloc)| ==> IsHundredths(Records(blocks, alloc)[k].marks)
  {
    RecordsAgree(blocks, alloc);
    forall k | 0 <= k < |Records(blocks, alloc)|
      ensures IsHundredths(Records(blocks, alloc)[k].marks)
    {
      assert RecordAgrees(Records(blocks, alloc)[k], alloc);
    }
  }

  predicate NoNegativeMarks(r: seq<Question>)
  {
    forall k :: 0 <= k < |r| ==> r[k].marks >= 0.0
  }

  predicate NoPositiveMarks(r: seq<Question>)
  {
    forall k :: 0 <= k < |r| ==> r[k].marks <= 0.0
  }

  /**
   * Before reconciliation the records' marks have the sign of the total: none
   * is negative for a non-negative total, none is positive for a negative one.
   */
  lemma RecordsMarksSign(blocks: seq<string>, totalMarks: int, numQuestions: int)
    requires numQuestions > 0
    ensures totalMarks >= 0 ==> NoNegativeMarks(Records(blocks, AllocateMarks(totalMarks, numQuestions)))
    ensures totalMarks < 0 ==> NoPositiveMarks(Records(blocks, AllocateMarks(totalMarks, numQuestions)))
  {
    var alloc := AllocateMarks(totalMarks, numQuestions);
    var r := Records(blocks, alloc);
    AllocateMarksValid(totalMarks, numQuestions);
    AllocationSign(totalMarks, numQuestions);
    RecordsAgree(blocks, alloc);
    forall k | 0 <= k < |r|
      ensures totalMarks >= 0 ==> r[k].marks >= 0.0
      ensures totalMarks < 0 ==> r[k].marks <= 0.0
    {
      assert r[k] in r;
      var f := FindLevel(alloc, r[k].bloomLevel).value;
      var i :| 0 <= i < |alloc| && alloc[i] == f;
      assert r[k].marks == Round2(alloc[i].adjustedMarks);
    }
  }

  /** Number of lines of all blocks that start with 'a' or 'b'. */
  function TotalLabelled(blocks: seq<string>): nat
  {
    if |blocks| == 0 then 0
    else TotalLabelled(blocks[..|blocks| - 1]) + LabelledCount(SubQuestions(blocks[|blocks| - 1]))
  }

  /** One record per kept line, and no more: other lines are dropped without error. */
  lemma {:induction false} RecordsCount(blocks: seq<string>, alloc: seq<Allocation>)
    requires ValidAllocation(alloc)
    ensures |Records(blocks, alloc)| == TotalLabelled(blocks)
  {
    if |blocks| > 0 {
      RecordsCount(blocks[..|blocks| - 1], alloc);
      PartLinesCount(SubQuestions(blocks[|blocks| - 1]));
    }
  }

  /** Every record has a number in 1..n and the course tag of that number. */
  predicate NumberedWithin(r: seq<Question>, n: nat)
  {
    forall k :: 0 <= k < |r| ==>
      1 <= r[k].questionNumber <= n && r[k].course == CourseCode(r[k].questionNumber - 1)
  }

  /** Question numbers never decrease along the records. */
  predicate NumbersAscend(r: seq<Question>)
  {
    forall j, k :: 0 <= j < k < |r| ==> r[j].questionNumber <= r[k].questionNumber
  }

  /**
   * Question numbers run from 1 to the number of blocks, never decrease along
   * the records, and each record's course tag matches its number.
   */
  lemma {:induction false} RecordsNumbering(blocks: seq<string>, alloc: seq<Allocation>)
    requires ValidAllocation(alloc)
    ensures NumberedWithin(Records(blocks, alloc), |blocks|)
    ensures NumbersAscend(Records(blocks, alloc))
  {
    if |blocks| > 0 {
      var init := blocks[..|blocks| - 1];
      var last := BlockQuestions(|blocks| - 1, blocks[|blocks| - 1], alloc);
      RecordsNumbering(init, alloc);
      BlockNumbered(|blocks| - 1, blocks[|blocks| - 1], alloc);
      NumberingAppend(Records(init, alloc), last, |blocks|);
    }
  }

  lemma NumberingAppend(x: seq<Question>, y: seq<Question>, n: nat)
    requires n >= 1 && NumberedWithin(x, n - 1) && NumbersAscend(x)
    requires AllNumbered(y, n - 1)
    ensures NumberedWithin(x + y, n) && NumbersAscend(x + y)
  {
    var r := x + y;
    forall k | 0 <= k < |r|
      ensures 1 <= r[k].questionNumber <= n && r[k].course == CourseCode(r[k].questionNumber - 1)
    {
      if k < |x| { assert r[k] == x[k]; } else { assert r[k] == y[k - |x|]; }
    }
    forall j, k | 0 <= j < k < |r|
      ensures r[j].questionNumber <= r[k].questionNumber
    {
      if k < |x| {
        assert r[j] == x[j] && r[k] == x[k];
      } else if j < |x| {
        assert r[j] == x[j] && r[k] == y[k - |x|];
      } else {
        assert r[j] == y[j - |x|] && r[k] == y[k - |x|];
      }
    }
  }

  /** The records of the blocks before i are a prefix of all the records. */
  lemma {:induction false} RecordsPrefix(blocks: seq<string>, i: nat, alloc: seq<Allocation>)
    requires ValidAllocation(alloc) && i <= |blocks|
    ensures var p := Records(blocks[..i], alloc);
            |p| <= |Records(blocks, alloc)| && Records(blocks, alloc)[..|p|] == p
  {
    if i < |blocks| {
      var init := blocks[..|blocks| - 1];
      assert init[..i] == blocks[..i];
      RecordsPrefix(init, i, alloc);
      PrefixAppend(Records(init, alloc), BlockQuestions(|blocks| - 1, blocks[|blocks| - 1], alloc), Records(init[..i], alloc));
    } else {
      assert blocks[..i] == blocks;
    }
  }

  lemma PrefixAppend<T>(x: seq<T>, y: seq<T>, p: seq<T>)
    requires |p| <= |x| && x[..|p|] == p
    ensures |p| <= |x + y| && (x + y)[..|p|] == p
  {
    assert (x + y)[..|p|] == x[..|p|];
  }

  /** `questions.reduce((sum, q) => sum + q.marks, 0)`. */
  function SumMarks(questions: seq<Question>): real
  {
    if |questions| == 0 then 0.0
    else SumMarks(questions[..|questions| - 1]) + questions[|questions| - 1].marks
  }

  /** A sum of marks none of which is negative is not negative. */
  lemma {:induction false} SumMarksNonNegative(questions: seq<Question>)
    requires NoNegativeMarks(questions)
    ensures SumMarks(questions) >= 0.0
  {
    if |questions| > 0 {
      SumMarksNonNegative(questions[..|questions| - 1]);
    }
  }

  /** A sum of whole hundredths is a whole number of hundredths. */
  lemma {:induction false} SumMarksHundredths(questions: seq<Question>)
    requires forall k :: 0 <= k < |questions| ==> IsHundredths(questions[k].marks)
    ensures IsHundredths(SumMarks(questions))
  {
    if |questions| == 0 {
      IntIsHundredths(0);
    } else {
      SumMarksHundredths(questions[..|questions| - 1]);
      HundredthsAdd(SumMarks(questions[..|questions| - 1]), questions[|questions| - 1].marks);
    }
  }

  /** Changing one record's marks changes the sum by the same amount. */
  lemma {:induction false} SumMarksUpdate(questions: seq<Question>, k: nat, x: real)
    requires k < |questions|
    ensures SumMarks(questions[k := questions[k].(marks := x)]) == SumMarks(questions) - questions[k].marks + x
  {
    var n := |questions|;
    var u := questions[k := questions[k].(marks := x)];
    if k < n - 1 {
      assert u[..n - 1] == questions[..n - 1][k := questions[k].(marks := x)];
      SumMarksUpdate(questions[..n - 1], k, x);
    } else {
      assert u[..n - 1] == questions[..n - 1];
    }
  }

  /**
   * The reconciliation pass: when the sum differs from the requested total,
   * the rounded difference is added to the first record's marks. On an
   * empty list that read of `questions[0]` throws, modelled as None.
   */
  function Reconcile(questions: seq<Question>, marks: int): (r: Option<seq<Question>>)
    ensures r.None? <==> questions == [] && marks != 0
    ensures r.Some? ==> |r.value| == |questions|
    ensures r.Some? ==> forall k :: 1 <= k < |questions| ==> r.value[k] == questions[k]
    ensures r.Some? && |questions| > 0 ==> r.value[0] == questions[0].(marks := r.value[0].marks)
    ensures r.Some? && SumMarks(questions) == marks as real ==> r.value == questions
  {
    var total := SumMarks(questions);
    if total == marks as real then Some(questions)
    else if |questions| == 0 then None
    else Some(questions[0 := questions[0].(marks := questions[0].marks + Round2(marks as real - total))])
  }

  /**
   * With marks in whole hundredths, the reconciled records add up to the
   * requested total exactly.
   */
  lemma ReconcileExact(questions: seq<Question>, marks: int)
    ensures (forall k :: 0 <= k < |questions| ==> IsHundredths(questions[k].marks)) &&
            Reconcile(questions, marks).Some? ==>
            SumMarks(Reconcile(questions, marks).value) == marks as real
  {
    var total := SumMarks(questions);
    if (forall k :: 0 <= k < |questions| ==> IsHundredths(questions[k].marks)) && total != marks as real && |questions| > 0 {
      SumMarksHundredths(questions);
      IntIsHundredths(marks);
      HundredthsAdd(marks as real, total);
      var d := marks as real - total;
      assert Round2(d) == d;
      SumMarksUpdate(questions, 0, questions[0].marks + d);
    }
  }

}
