/**
 * The fixed Bloom's-taxonomy catalog, the question-count selector and the
 * level cycler of the question-paper generator.
 */
module Taxonomy {

  /** One catalog entry: identifier L1..L6, name, description and relative weight. */
  datatype BloomLevel = BloomLevel(level: string, code: string, description: string, weightage: real)

  /** The level-related fields copied into each question record. */
  datatype BloomData = BloomData(bloomLevel: string, bloomLevelDescription: string, bloomWeightage: real)

  /** The catalog, from lowest to highest complexity. */
  const BloomLevels: seq<BloomLevel> := [
    BloomLevel("L1", "Remember", "Recall basic facts, terms, concepts", 0.1),
    BloomLevel("L2", "Understand", "Explain ideas, interpret information", 0.2),
    BloomLevel("L3", "Apply", "Use information in new situations", 0.3),
    BloomLevel("L4", "Analyze", "Draw connections, distinguish components", 0.4),
    BloomLevel("L5", "Evaluate", "Justify, critique, make judgments", 0.5),
    BloomLevel("L6", "Create", "Generate new ideas, design solutions", 0.6)
  ]

  /** The catalog has six entries whose weights rise strictly and are each a tenth times the position. */
  lemma CatalogShape()
    ensures |BloomLevels| == 6
    ensures forall i :: 0 <= i < |BloomLevels| ==> BloomLevels[i].weightage == (i + 1) as real / 10.0
    ensures forall i, j :: 0 <= i < j < |BloomLevels| ==> BloomLevels[i].weightage < BloomLevels[j].weightage
    ensures forall i, j :: 0 <= i < j < |BloomLevels| ==> BloomLevels[i].level != BloomLevels[j].level
  {
    forall i | 0 <= i < |BloomLevels|
      ensures BloomLevels[i].weightage == (i + 1) as real / 10.0
    {
      if i == 0 {} else if i == 1 {} else if i == 2 {} else if i == 3 {} else if i == 4 {} else {}
    }
  }

  /** Number of questions requested for a mark total: an exact lookup with default 2. */
  function DetermineQuestionCount(marks: int): (n: int)
    ensures n in {2, 3, 5}
    ensures n == 3 <==> marks == 50
    ensures n == 5 <==> marks == 100
    ensures marks != 50 && marks != 100 ==> n == 2
  {
    match marks
    case 25 => 2
    case 50 => 3
    case 100 => 5
    case _ => 2
  }

  /** The catalog position used for part `subPartIndex` of question `questionIndex`. */
  function CycleIndex(questionIndex: nat, subPartIndex: nat): (i: nat)
    ensures i < |BloomLevels|
  {
    (questionIndex * 2 + subPartIndex) % |BloomLevels|
  }

  function Tag(b: BloomLevel): BloomData
  {
    BloomData(b.level, b.code, b.weightage)
  }

  /** `assignBloomLevel`: the level data of the catalog entry at (2q + p) mod 6. */
  function AssignBloomLevel(questionIndex: nat, subPartIndex: nat): (r: BloomData)
    ensures r.bloomWeightage == (CycleIndex(questionIndex, subPartIndex) + 1) as real / 10.0
  {
    CatalogShape();
    Tag(BloomLevels[CycleIndex(questionIndex, subPartIndex)])
  }

  /**
   * Part a (selector 0) of a question gets the levels L1, L3 or L5 and part b
   * (selector 1) the level right after it, so the two parts always get
   * different, adjacent levels, part b weighing 0.1 more.
   */
  lemma {:induction false} PartsGetAdjacentLevels(questionIndex: nat)
    ensures CycleIndex(questionIndex, 0) % 2 == 0
    ensures CycleIndex(questionIndex, 1) == CycleIndex(questionIndex, 0) + 1
    ensures AssignBloomLevel(questionIndex, 0) != AssignBloomLevel(questionIndex, 1)
    ensures AssignBloomLevel(questionIndex, 1).bloomWeightage == AssignBloomLevel(questionIndex, 0).bloomWeightage + 0.1
  {
    var a := CycleIndex(questionIndex, 0);
    CatalogShape();
    PairPositions(questionIndex);
    assert BloomLevels[a].level != BloomLevels[a + 1].level;
  }

  lemma PairPositions(q: nat)
    ensures (q * 2 + 0) % 6 == 2 * (q % 3)
    ensures (q * 2 + 1) % 6 == 2 * (q % 3) + 1
  {
    var m := q % 3;
    assert q * 2 == (q / 3) * 6 + 2 * m;
  }

  /** The assignment repeats every three questions. */
  lemma {:induction false} CycleRepeats(questionIndex: nat, subPartIndex: nat)
    ensures AssignBloomLevel(questionIndex + 3, subPartIndex) == AssignBloomLevel(questionIndex, subPartIndex)
  {
    assert (questionIndex + 3) * 2 + subPartIndex == (questionIndex * 2 + subPartIndex) + 6;
  }

  /** Every catalog level is reached: position i is used by part i mod 2 of question i / 2. */
  lemma {:induction false} CycleCoversCatalog(i: nat)
    requires i < |BloomLevels|
    ensures CycleIndex(i / 2, i % 2) == i
    ensures AssignBloomLevel(i / 2, i % 2) == Tag(BloomLevels[i])
  {
    assert (i / 2) * 2 + i % 2 == i;
  }
}
