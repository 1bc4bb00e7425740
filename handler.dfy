/**
 * The post-processing part of the `/generate-questions` handler: from the
 * requested mark total and the generator's reply to the response document.
 */
module Handler {
  import opened Wrappers
  import opened Taxonomy
  import opened Allocation
  import opened Parser
  import opened Assembler

  /** The response body on success. */
  datatype Response = Response(
    questions: seq<Question>,
    totalQuestions: int,
    marksRequested: int,
    totalMarks: int,
    marksAllocation: seq<Allocation>)

  /** The two failures reported to the caller: no image (status 400), and anything else (status 500). */
  datatype Error = NoImageUploaded | FailedToGenerate

  /**
   * `parseInt(maxMarks) || 20`, where the parsed value is None when
   * `parseInt` gives NaN: a missing, non-numeric or zero value means 20.
   */
  function EffectiveMarks(maxMarks: Option<int>): (m: int)
    ensures m != 0
    ensures maxMarks.Some? && maxMarks.value != 0 ==> m == maxMarks.value
    ensures maxMarks.None? || maxMarks.value == 0 ==> m == 20
  {
    match maxMarks
    case Some(v) => if v != 0 then v else 20
    case None => 20
  }

  /**
   * `|| 20` replaces only NaN and 0, so a negative total is kept, and every
   * level of its table then gets negative marks.
   */
  lemma NegativeTotalKept(v: int)
    requires v < 0
    ensures EffectiveMarks(Some(v)) == v
    ensures var alloc := AllocateMarks(v, DetermineQuestionCount(v));
            forall i :: 0 <= i < |alloc| ==> alloc[i].adjustedMarks < 0.0
  {
    AllocationSign(v, DetermineQuestionCount(v));
  }

  /**
   * The handler: `imageUploaded` says whether the request carried a file,
   * `reply` is the generator's text, or None when the generator call threw.
   * A missing file is refused first; a throw of the generator or while the
   * reply is processed ends in the one generic failure.
   */
  method GenerateQuestions(maxMarks: Option<int>, imageUploaded: bool, reply: Option<string>)
    returns (r: Result<Response, Error>)
    ensures r == Failure(NoImageUploaded) <==> !imageUploaded
    ensures var marks := EffectiveMarks(maxMarks);
            var alloc := AllocateMarks(marks, DetermineQuestionCount(marks));
            r == Failure(FailedToGenerate) <==>
              imageUploaded && (reply.None? || Records(QuestionBlocks(reply.value), alloc) == [])
    ensures var marks := EffectiveMarks(maxMarks);
            var numQuestions := DetermineQuestionCount(marks);
            var alloc := AllocateMarks(marks, numQuestions);
            r.Success? ==>
              && reply.Some?
              && Reconcile(Records(QuestionBlocks(reply.value), alloc), marks) == Some(r.value.questions)
              && r.value.totalQuestions == numQuestions
              && r.value.marksRequested == marks && r.value.totalMarks == marks
              && r.value.marksAllocation == alloc
    ensures r.Success? ==> SumMarks(r.value.questions) == r.value.totalMarks as real
  {
    var marks := EffectiveMarks(maxMarks);
    var numQuestions := DetermineQuestionCount(marks);
    if !imageUploaded {
      return Failure(NoImageUploaded);
    }
    var marksAllocation := AllocateMarks(marks, numQuestions);
    AllocateMarksValid(marks, numQuestions);
    if reply.None? {
      return Failure(FailedToGenerate);
    }
    var questions := ProcessReply(reply.value, marks, marksAllocation);
    if questions.None? {
      return Failure(FailedToGenerate);
    }
    r := Success(Response(questions.value, numQuestions, marks, marks, marksAllocation));
  }

  /**
   * From the reply text to the reconciled records: blocks are turned into
   * records one after the other, the marks are summed and, when the sum is
   * off, the first record takes the rounded difference. None stands for
   * the throw when there is no first record to adjust.
   */
  method ProcessReply(generatedQuestions: string, marks: int, marksAllocation: seq<Allocation>)
    returns (r: Option<seq<Question>>)
    requires ValidAllocation(marksAllocation)
    ensures r == Reconcile(Records(QuestionBlocks(generatedQuestions), marksAllocation), marks)
    ensures r.None? <==> Records(QuestionBlocks(generatedQuestions), marksAllocation) == [] && marks != 0
    ensures r.Some? ==> SumMarks(r.value) == marks as real
  {
    var questionBlocks := QuestionBlocks(generatedQuestions);
    var questions := BuildQuestions(questionBlocks, marksAllocation);
    RecordsHundredths(questionBlocks, marksAllocation);
    r := AdjustMarks(questions, marks);
  }

  /**
   * The reconciliation pass on the records: sum the marks and, when the sum
   * is off, add the rounded difference to the first record. None stands for
   * the throw when there is no first record.
   */
  method AdjustMarks(questions: seq<Question>, marks: int) returns (r: Option<seq<Question>>)
    ensures r == Reconcile(questions, marks)
    ensures r.None? <==> questions == [] && marks != 0
    ensures r.Some? && (forall k :: 0 <= k < |questions| ==> IsHundredths(questions[k].marks)) ==>
      SumMarks(r.value) == marks as real
  {
    var totalCurrentMarks := TotalMarks(questions);
    ReconcileExact(questions, marks);
    r := Some(questions);
    if totalCurrentMarks != marks as real {
      if |questions| == 0 {
        return None;
      }
      var difference := marks as real - totalCurrentMarks;
      r := Some(questions[0 := questions[0].(marks := questions[0].marks + Round2(difference))]);
    }
  }

  /** `questionBlocks.forEach((block, questionIndex) => questions.push(...))`. */
  method BuildQuestions(questionBlocks: seq<string>, marksAllocation: seq<Allocation>) returns (questions: seq<Question>)
    requires ValidAllocation(marksAllocation)
    ensures questions == Records(questionBlocks, marksAllocation)
  {
    questions := [];
    var questionIndex := 0;
    while questionIndex < |questionBlocks|
      invariant 0 <= questionIndex <= |questionBlocks|
      invariant questions == Records(questionBlocks[..questionIndex], marksAllocation)
    {
      assert questionBlocks[..questionIndex + 1][..questionIndex] == questionBlocks[..questionIndex];
      questions := questions + BlockQuestions(questionIndex, questionBlocks[questionIndex], marksAllocation);
      questionIndex := questionIndex + 1;
    }
    assert questionBlocks[..|questionBlocks|] == questionBlocks;
  }

  /** `questions.reduce((sum, q) => sum + q.marks, 0)`. */
  method TotalMarks(questions: seq<Question>) returns (total: real)
    ensures total == SumMarks(questions)
  {
    total := 0.0;
    var k := 0;
    while k < |questions|
      invariant 0 <= k <= |questions|
      invariant total == SumMarks(questions[..k])
    {
      assert questions[..k + 1][..k] == questions[..k];
      total := total + questions[k].marks;
      k := k + 1;
    }
    assert questions[..|questions|] == questions;
  }
}
