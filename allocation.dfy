/**
 * The per-level mark table of the question-paper generator, the look-up of
 * a level in it, and rounding to two decimal places.
 */
module Allocation {
  import opened Wrappers
  import opened Taxonomy

  /** A catalog entry extended with the marks one sub-question at that level receives. */
  datatype Allocation = Allocation(level: string, code: string, description: string, weightage: real, adjustedMarks: real)

  /** Each question is assumed to have four sub-questions: two in part a and two in part b. */
  const SubQuestionsPerQuestion: int := 4

  /** The marks of one sub-question of weight 1: total / questions / 4. */
  function BaseMarks(totalMarks: int, numQuestions: int): real
    requires numQuestions != 0
  {
    totalMarks as real / numQuestions as real / SubQuestionsPerQuestion as real
  }

  /**
   * `allocateMarks`: one entry per catalog level, in catalog order, that
   * keeps the level's fields and sets its marks to the base marks times
   * the level's weight.
   */
  function AllocateMarks(totalMarks: int, numQuestions: int): (r: seq<Allocation>)
    requires numQuestions != 0
    ensures |r| == |BloomLevels|
    ensures forall i :: 0 <= i < |r| ==>
      && r[i].level == BloomLevels[i].level
      && r[i].code == BloomLevels[i].code
      && r[i].description == BloomLevels[i].description
      && r[i].weightage == BloomLevels[i].weightage
      && r[i].adjustedMarks == BaseMarks(totalMarks, numQuestions) * BloomLevels[i].weightage
  {
    var base := BaseMarks(totalMarks, numQuestions);
    seq(|BloomLevels|, i requires 0 <= i < |BloomLevels| =>
      var b := BloomLevels[i];
      Allocation(b.level, b.code, b.description, b.weightage, base * b.weightage))
  }

  /**
   * Entry i receives (i + 1) times the marks of entry 0, so for a positive
   * total and question count the marks rise strictly along the catalog.
   */
  lemma AllocationProportional(totalMarks: int, numQuestions: int)
    requires numQuestions != 0
    ensures var r := AllocateMarks(totalMarks, numQuestions);
      forall i :: 0 <= i < |r| ==> r[i].adjustedMarks == (i + 1) as real * r[0].adjustedMarks
  {
    CatalogShape();
  }

  lemma AllocationIncreasing(totalMarks: int, numQuestions: int)
    requires totalMarks > 0 && numQuestions > 0
    ensures var r := AllocateMarks(totalMarks, numQuestions);
      forall i, j :: 0 <= i < j < |r| ==> r[i].adjustedMarks < r[j].adjustedMarks
  {
    var r := AllocateMarks(totalMarks, numQuestions);
    var base := BaseMarks(totalMarks, numQuestions);
    assert base > 0.0;
    CatalogShape();
    forall i, j | 0 <= i < j < |r|
      ensures r[i].adjustedMarks < r[j].adjustedMarks
    {
      MultiplyPositive(base, BloomLevels[i].weightage, BloomLevels[j].weightage);
    }
  }

  /**
   * The sign of the table follows the sign of the total: a positive total
   * gives every level positive marks, a negative one (which `|| 20` lets
   * through) negative marks.
   */
  lemma AllocationSign(totalMarks: int, numQuestions: int)
    requires numQuestions > 0
    ensures var r := AllocateMarks(totalMarks, numQuestions);
      && (totalMarks > 0 ==> forall i :: 0 <= i < |r| ==> r[i].adjustedMarks > 0.0)
      && (totalMarks == 0 ==> forall i :: 0 <= i < |r| ==> r[i].adjustedMarks == 0.0)
      && (totalMarks < 0 ==> forall i :: 0 <= i < |r| ==> r[i].adjustedMarks < 0.0)
  {
    var base := BaseMarks(totalMarks, numQuestions);
    var d := numQuestions as real * SubQuestionsPerQuestion as real;
    assert base == totalMarks as real / d;
    QuotientSign(totalMarks as real, d);
    CatalogShape();
    forall i | 0 <= i < |BloomLevels|
      ensures totalMarks > 0 ==> base * BloomLevels[i].weightage > 0.0
      ensures totalMarks < 0 ==> base * BloomLevels[i].weightage < 0.0
    {
      ProductSign(base, BloomLevels[i].weightage);
    }
  }

  lemma QuotientSign(x: real, d: real)
    requires d > 0.0
    ensures x > 0.0 ==> x / d > 0.0
    ensures x == 0.0 ==> x / d == 0.0
    ensures x < 0.0 ==> x / d < 0.0
  {
  }

  lemma ProductSign(x: real, w: real)
    requires w > 0.0
    ensures x > 0.0 ==> x * w > 0.0
    ensures x < 0.0 ==> x * w < 0.0
  {
  }

  lemma MultiplyPositive(c: real, x: real, y: real)
    requires c > 0.0 && x < y
    ensures c * x < c * y
  {
  }

  /** A table of six entries that carry the catalog's fields in catalog order. */
  predicate ValidAllocation(alloc: seq<Allocation>)
  {
    |alloc| == |BloomLevels| &&
    forall i :: 0 <= i < |alloc| ==>
      && alloc[i].level == BloomLevels[i].level
      && alloc[i].code == BloomLevels[i].code
      && alloc[i].description == BloomLevels[i].description
      && alloc[i].weightage == BloomLevels[i].weightage
  }

  lemma AllocateMarksValid(totalMarks: int, numQuestions: int)
    requires numQuestions != 0
    ensures ValidAllocation(AllocateMarks(totalMarks, numQuestions))
  {
  }

  /** `alloc.find(m => m.level === level)`: the first entry with that identifier, if any. */
  function FindLevel(alloc: seq<Allocation>, level: string): (r: Option<Allocation>)
    ensures r.Some? ==> r.value in alloc && r.value.level == level
    ensures r.None? ==> forall a :: a in alloc ==> a.level != level
  {
    if |alloc| == 0 then None
    else if alloc[0].level == level then Some(alloc[0])
    else FindLevel(alloc[1..], level)
  }

  /** The look-up finds the entry at position k when k is the first with that identifier. */
  lemma {:induction false} FindFirst(alloc: seq<Allocation>, level: string, k: nat)
    requires k < |alloc| && alloc[k].level == level
    requires forall j :: 0 <= j < k ==> alloc[j].level != level
    ensures FindLevel(alloc, level) == Some(alloc[k])
  {
    if k > 0 {
      FindFirst(alloc[1..], level, k - 1);
    }
  }

  /**
   * In a valid allocation the look-up of the level assigned to any part of
   * any question succeeds, and yields the entry at that catalog position.
   */
  lemma FindAssigned(alloc: seq<Allocation>, questionIndex: nat, subPartIndex: nat)
    requires ValidAllocation(alloc)
    ensures FindLevel(alloc, AssignBloomLevel(questionIndex, subPartIndex).bloomLevel)
         == Some(alloc[CycleIndex(questionIndex, subPartIndex)])
  {
    CatalogShape();
    var k := CycleIndex(questionIndex, subPartIndex);
    FindFirst(alloc, BloomLevels[k].level, k);
  }

  /** x is a whole number of hundredths. */
  predicate IsHundredths(x: real)
  {
    (x * 100.0).Floor as real == x * 100.0
  }

  /**
   * `Number(x.toFixed(2))` on exact values: the nearest hundredth, ties
   * rounded away from zero.
   */
  function Round2(x: real): (r: real)
    ensures IsHundredths(r)
    ensures x >= 0.0 ==> r >= 0.0 && -0.005 < r - x <= 0.005
    ensures x < 0.0 ==> r <= 0.0 && -0.005 <= r - x < 0.005
    ensures IsHundredths(x) ==> r == x
  {
    if x >= 0.0 then RoundUpHalf(x)
    else
      var r := RoundUpHalf(-x);
      HundredthsNeg(r);
      HundredthsNeg(x);
      -r
  }

  function RoundUpHalf(x: real): (r: real)
    requires x >= 0.0
    ensures IsHundredths(r) && r >= 0.0
    ensures -0.005 < r - x <= 0.005
    ensures IsHundredths(x) ==> r == x
  {
    var f := (x * 100.0 + 0.5).Floor;
    assert f as real <= x * 100.0 + 0.5 < f as real + 1.0;
    var r := f as real / 100.0;
    assert r * 100.0 == f as real;
    HundredthsFixed(x);
    r
  }

  lemma HundredthsFixed(x: real)
    ensures IsHundredths(x) ==> (x * 100.0 + 0.5).Floor as real == x * 100.0
  {
    if IsHundredths(x) {
      var y := x * 100.0;
      var k := y.Floor;
      assert y == k as real;
      FloorPlusHalf(k);
    }
  }

  lemma FloorPlusHalf(k: int)
    ensures (k as real + 0.5).Floor == k
  {
  }

  /** Hundredths are closed under negation, addition and subtraction. */
  lemma HundredthsNeg(x: real)
    ensures IsHundredths(x) ==> IsHundredths(-x)
  {
    if IsHundredths(x) {
      var k := (x * 100.0).Floor;
      assert (-x) * 100.0 == -(x * 100.0);
      HundredthsOf(-x, -k);
    }
  }

  lemma HundredthsAdd(x: real, y: real)
    requires IsHundredths(x) && IsHundredths(y)
    ensures IsHundredths(x + y) && IsHundredths(x - y)
  {
    var i := (x * 100.0).Floor;
    var j := (y * 100.0).Floor;
    assert (x + y) * 100.0 == x * 100.0 + y * 100.0;
    assert (x - y) * 100.0 == x * 100.0 - y * 100.0;
    HundredthsOf(x + y, i + j);
    HundredthsOf(x - y, i - j);
  }

  /** x is a whole number of hundredths when 100 x is an integer. */
  lemma HundredthsOf(x: real, k: int)
    requires x * 100.0 == k as real
    ensures IsHundredths(x)
  {
    assert (k as real).Floor == k;
  }

  lemma IntIsHundredths(n: int)
    ensures IsHundredths(n as real)
  {
    assert n as real * 100.0 == (n * 100) as real;
  }

  /**
   * A worked case: 50 marks give 3 questions, and a
   * level-1 sub-question gets 50 / 3 / 4 * 0.1 = 0.41666..., shown as 0.42.
   */
  lemma FiftyMarksExample()
    ensures DetermineQuestionCount(50) == 3
    ensures AllocateMarks(50, 3)[2].adjustedMarks == 1.25
    ensures Round2(AllocateMarks(50, 3)[0].adjustedMarks) == 0.42
  {
    var x := AllocateMarks(50, 3)[0].adjustedMarks;
    assert x == 50.0 / 120.0;
    assert (x * 100.0 + 0.5).Floor == 42;
  }
}
