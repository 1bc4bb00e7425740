# Question-paper synthesis engine, modelled in Dafny

This project models the deterministic core of the question-paper generator in `index.js`. The request handler receives a mark total and an image. It asks a generative model for questions in a fixed layout, then turns the model's reply text into weighted question records. The model covers:

- **Catalog** (module `Taxonomy`): the six Bloom's-taxonomy levels L1..L6 with their names, descriptions and weights 0.1..0.6.
- **Question count** (`Taxonomy`): the question-count lookup with its default.
- **Level cycler** (`Taxonomy`): gives part a or part b of question q the entry at position (2q + p) mod 6.
- **Mark allocator** (module `Allocation`): one entry per level, with marks M / N / 4 × weight. It also holds the first-match look-up of a level and the two-decimal rounding.
- **JavaScript string primitives** (module `JsString`): `split` on one character, `trim`, `startsWith`, the classes `\d` and `\s`, and the decimal rendering used in `CO${n}`.
- **Reply parser** (module `Parser`):
  - split the reply on 'Q' and drop blank pieces;
  - split each block into lines and drop blank lines;
  - keep the lines that start with 'a' or 'b';
  - strip the label `a\d*\)\s*` and trim.
- **Record assembler and reconciliation** (module `Assembler`): one record per kept line, numbered and tagged. The marks are summed, and when the sum is off, the rounded difference goes to the first record.
- **Handler** (module `Handler`): the `/generate-questions` handler from the mark total to the response. It is written as methods with loops: `forEach` with `push`, then `reduce`, then the update of `questions[0]`, written as a sequence update (no other reference to that record is observable).
- **Round trip** (module `Layout`): the layout the prompt asks for (`Q1:`, `a1) …`, `a2) …`, `b1) …`, `b2) …`). A reply written exactly in that layout is parsed back into four records per question. Those records carry the texts that were written, with the numbering and part structure of the layout.

The model follows the source as written, including these quirks:

- **The text before the first 'Q' is kept.** It becomes block 0 unless it is blank. A reply without any 'Q' is a single block (`Parser.SplitAtFirstQ`, `Parser.NoQOneBlock`). Every 'Q' inside a question's text starts a new block too.
- **The part test runs on the untrimmed line** (`startsWith`), so an indented `  a1) …` line is dropped.
- **No records means failure.** When no record is produced, the sum is 0 and differs from the total, which is never 0. The update of `questions[0]` then throws, and the handler answers with its generic failure. It does not return an empty list.
- **Marks are not clamped.** A reply with more lines than the layout can push the sum past the total. The first record's marks can then become negative.

## Model

| member | source | states |
|---|---|---|
| Taxonomy.CatalogShape | index.js:21-58 | the catalog has six entries; entry i weighs (i+1)/10, the weights strictly increase and the identifiers are pairwise distinct |
| Taxonomy.DetermineQuestionCount | index.js:61-68 | the count is always 2, 3 or 5; it is 3 exactly for 50 and 5 exactly for 100; every other total gives 2 |
| Taxonomy.CycleIndex | index.js:72-73 | the position (2q + p) mod 6 always lies inside the catalog; its pattern is stated by Taxonomy.PartsGetAdjacentLevels, Taxonomy.CycleRepeats and Taxonomy.CycleCoversCatalog |
| Taxonomy.AssignBloomLevel | index.js:71-79 | part p of question q gets the catalog entry at position (2q + p) mod 6, weighing (position + 1) / 10; its other properties are in Taxonomy.PartsGetAdjacentLevels, Taxonomy.CycleRepeats, Taxonomy.CycleCoversCatalog and Assembler.LevelIgnoresLine |
| Taxonomy.PartsGetAdjacentLevels | index.js:71-79 | part a gets an even catalog position (L1, L3 or L5) and part b the next one, so the two parts get different levels and part b weighs 0.1 more |
| Taxonomy.CycleRepeats | index.js:71-79 | the level assignment repeats every three questions |
| Taxonomy.CycleCoversCatalog | index.js:71-79 | every catalog position i is reached, by part i mod 2 of question i / 2 |
| Allocation.BaseMarks | index.js:83-85 | the marks of a sub-question of weight 1, total / questions / 4; specified through Allocation.AllocateMarks, Allocation.AllocationProportional and Allocation.AllocationSign |
| Allocation.AllocateMarks | index.js:82-91 | six entries in catalog order; each keeps its level's identifier, name, description and weight; its marks are total / questions / 4 × weight |
| Allocation.AllocationProportional | index.js:82-91 | entry i gets (i+1) times the marks of entry 0 |
| Allocation.AllocationIncreasing | index.js:82-91 | for a positive total and question count the marks strictly increase along the catalog |
| Allocation.AllocationSign | index.js:82-91 | every entry's marks have the sign of the total: positive for a positive total, 0 for 0, negative for a negative total |
| Allocation.FiftyMarksExample | index.js:82-91 | 50 marks give 3 questions; level 3 gets 1.25, and level 1 gets 0.41666…, which rounds to 0.42 |
| Allocation.FindLevel | index.js:159 | `find` gives an entry of the table with the requested identifier, or None only when no entry has it |
| Allocation.FindFirst | index.js:159 | the look-up returns the first entry with the identifier |
| Allocation.FindAssigned | index.js:159 | on a valid table the look-up of any assigned level succeeds and returns the entry at the cycled position |
| Allocation.Round2 | index.js:165 | the result is a whole number of hundredths, within half a hundredth of the input (ties away from zero), of the same sign, and equal to the input when it already is whole hundredths |
| Allocation.HundredthsAdd | index.js:189-192 | sums and differences of whole hundredths are whole hundredths |
| JsString.Split | index.js:141 | at least one piece, and no piece contains the separator |
| JsString.JoinSplit | index.js:141 | joining the pieces back with the separator gives the input |
| JsString.SplitJoin | index.js:141 | splitting separator-free pieces joined by the separator gives the pieces back |
| JsString.SplitAfter | index.js:141 | a separator-free head followed by the separator is split off as the first piece |
| JsString.SplitCount | index.js:141 | there is one more piece than there are separators |
| JsString.IsWhiteSpace | index.js:164 | the ECMAScript WhiteSpace and LineTerminator characters that `trim` removes and `\s` matches; used by JsString.LeadingSpace, JsString.TrailingSpace and JsString.TrimmedBlank |
| JsString.IsDigit | index.js:164 | the ASCII digits that `\d` matches; used by Parser.DigitRun and Parser.LabelLengthSound |
| JsString.StartsWith | index.js:149-150 | `startsWith` with a one-character prefix; the part filters built on it are specified by Parser.PartLines and Parser.PartLinesCount |
| JsString.Trim | index.js:164 | `trim`, also used at index.js:141 and 146; specified by JsString.TrimmedEdges, JsString.TrimKeepsMiddle, JsString.TrimCutsSpace, JsString.TrimmedBlank and JsString.TrimUntouched |
| JsString.TrimmedBlank | index.js:141 | `trim` gives the empty string exactly when every character is white space |
| JsString.BlankIsTrimmedEmpty | index.js:146 | the blank test used by the filters is exactly `trim() === ''` |
| JsString.LeadingSpace | index.js:164 | the count of leading white space: everything before it is white space and the next character is not |
| JsString.TrailingSpace | index.js:164 | the count of trailing white space: everything after the cut is white space and the character before it is not |
| JsString.TrimmedEdges | index.js:164 | the result of `trim` neither starts nor ends with white space |
| JsString.TrimKeepsMiddle | index.js:164 | the result of `trim` is the slice of the input that starts right after the leading white space |
| JsString.TrimCutsSpace | index.js:164 | what `trim` removes on either side is white space only |
| JsString.TrimUntouched | index.js:164 | a string without white space at either end is left as it is by `trim` |
| JsString.NatToString | index.js:154 | `${n}` is a non-empty string of digits without a leading zero |
| JsString.NatToStringValue | index.js:154 | reading the digits back gives n |
| JsString.NatToStringInjective | index.js:154 | distinct numbers render to distinct strings |
| Parser.DropBlank | index.js:141 | the filter keeps only non-blank pieces and every non-blank piece; with Parser.DropBlankAppend it keeps them in order and with their multiplicity |
| Parser.DropBlankAppend | index.js:141 | the filter distributes over concatenation |
| Parser.QuestionBlocks | index.js:141 | every block is non-blank and free of 'Q', and the blocks are exactly the non-blank pieces between the characters 'Q'; order and the preamble are in Parser.SplitAtFirstQ and Parser.NoQOneBlock |
| Parser.SplitAtFirstQ | index.js:141 | a reply `pre Q rest` gives the block `pre` (unless blank) followed by the blocks of `rest` |
| Parser.NoQOneBlock | index.js:141 | a reply without 'Q' is one block, or none when blank |
| Parser.SubQuestions | index.js:146 | every kept line is non-blank and free of line breaks, and the kept lines are exactly the non-blank lines of the block |
| Parser.PartLines | index.js:148-151 | keeps only lines whose untrimmed text starts with the part letter, and every such line; with Parser.PartLinesAppend it keeps them in order and with their multiplicity |
| Parser.PartLinesAppend | index.js:149-150 | the part filter distributes over concatenation |
| Parser.PartLinesCount | index.js:148-151 | the two parts together hold exactly the lines starting with 'a' or 'b' |
| Parser.DigitRun | index.js:164 | the run is all digits and is followed by a non-digit or the end: the greedy `\d*` |
| Parser.LabelLength | index.js:164 | a match never runs past the line; after it comes a non-blank character or the end (greedy `\s*`) |
| Parser.LabelLengthSound | index.js:164 | what the look-up reports is a match of `part \d* \) \s*` |
| Parser.LabelLengthComplete | index.js:164 | every maximal match of the pattern is the one reported |
| Parser.StripPartLabel | index.js:164 | the `replace` never lengthens the line; what it removes is stated by Parser.StripDropsLabel, Parser.LabelLengthSound and Parser.LabelLengthComplete |
| Parser.StripDropsLabel | index.js:164 | the stripped line is a suffix of the line, and what was removed is either nothing or a whole label |
| Parser.QuestionText | index.js:164 | the text of a line is no longer than the line and neither starts nor ends with white space; its exact value is stated by Parser.QuestionTextOfLabelled and Parser.UnlabelledKeptWhole |
| Parser.QuestionTextOfLabelled | index.js:164 | a line `part digits ) spaces text` gives `trim(text)` |
| Parser.UnlabelledKeptWhole | index.js:164 | a line without ')' is kept whole and only trimmed |
| Assembler.CourseCode | index.js:154 | the tag is `CO` followed by a string of digits without a leading zero that reads back as the 1-based question number, which is the canonical decimal rendering |
| Assembler.CourseCodeInjective | index.js:154 | different questions get different course tags |
| Assembler.PartSelector | index.js:158 | the selector 0 for part a and 1 for part b (index.js:171) passed to `assignBloomLevel`; its effect is stated by Taxonomy.PartsGetAdjacentLevels and Assembler.LevelIgnoresLine |
| Assembler.LevelMarks | index.js:159 | the `find` of the assigned level yields the marks of the table entry at the cycled position (it never fails on a valid table) |
| Assembler.MakeQuestion | index.js:160-168 | a record carries the level, weight and rounded marks of the table entry at its cycled position; its other fields are in Assembler.MakeQuestionFields and Assembler.MakeQuestionAgrees |
| Assembler.LevelIgnoresLine | index.js:157-159 | the level, weight and marks of a record depend only on its question and its part, never on its line |
| Assembler.MakeQuestionFields | index.js:160-168 | a record carries its question number q+1, its course tag, its part, the 1-based sub-part and the stripped text |
| Assembler.MakeQuestionAgrees | index.js:158-166 | a record's description and weight are those of its level's table entry, and its marks are that entry's marks rounded to two decimals |
| Assembler.PartQuestions | index.js:157-169 | one record per line of the part |
| Assembler.PartTextsSnoc | index.js:164 | adding a line to a part adds its stripped text at the end |
| Assembler.PartQuestionsFields | index.js:157-169 | record i of a part is made from line i: sub-part i+1, the part letter and the stripped text of that line |
| Assembler.BlockQuestions | index.js:156-185 | a block gives one record per kept line that starts with 'a' or 'b'; their order and fields are in Assembler.BlockQuestionsShape |
| Assembler.BlockQuestionsShape | index.js:156-185 | a block's records are those of part a in line order, then those of part b in line order |
| Assembler.BlockPartsOrdered | index.js:185 | within a block no part-a record follows a part-b record |
| Assembler.BlockNumbered | index.js:154-185 | every record of block q carries number q+1 and tag `CO<q+1>` |
| Assembler.BlockQuestionsAgree | index.js:157-182 | every record of a block agrees with the table |
| Assembler.Records | index.js:145-186 | the records of all blocks, in block order; specified by Assembler.RecordsCount, Assembler.RecordsNumbering, Assembler.RecordsAgree, Assembler.RecordsPrefix and Handler.BuildQuestions |
| Assembler.RecordsAgree | index.js:145-186 | every record before reconciliation agrees with the table |
| Assembler.RecordsHundredths | index.js:165 | every record's marks are whole hundredths |
| Assembler.RecordsMarksSign | index.js:159-165 | before reconciliation no record has negative marks for a non-negative total, and none has positive marks for a negative total |
| Assembler.RecordsCount | index.js:146-150 | the number of records is the number of kept lines that start with 'a' or 'b', over all blocks; other lines are dropped without error |
| Assembler.RecordsNumbering | index.js:145-185 | question numbers run within 1..number of blocks, never decrease along the records, and each tag matches its number |
| Assembler.RecordsPrefix | index.js:143-186 | the records of the first i blocks are a prefix of all records |
| Assembler.SumMarks | index.js:189 | the `reduce` sum of the marks; specified by Handler.TotalMarks, Assembler.SumMarksNonNegative, Assembler.SumMarksHundredths and Assembler.SumMarksUpdate |
| Assembler.SumMarksNonNegative | index.js:189 | a sum of marks none of which is negative is not negative |
| Assembler.SumMarksHundredths | index.js:189 | a sum of whole hundredths is whole hundredths |
| Assembler.SumMarksUpdate | index.js:192 | changing one record's marks changes the sum by the same amount |
| Assembler.Reconcile | index.js:189-193 | fails exactly on no records with a non-zero total; otherwise only the marks of the first record may change, and nothing changes when the sum already matches |
| Assembler.ReconcileExact | index.js:189-193 | with marks in whole hundredths the reconciled records add up to the requested total exactly |
| Handler.EffectiveMarks | index.js:96 | the parsed total, or 20 when it is falsy: never 0; a parsed non-zero value is kept; NaN or 0 becomes 20 |
| Handler.NegativeTotalKept | index.js:96 | a negative parsed total is kept, since only NaN and 0 fall back to 20, and every level of its table then gets negative marks |
| Handler.GenerateQuestions | index.js:94-205 | a missing image is refused first; otherwise there is a failure exactly when the generator threw or no record was made; on success the response holds the reconciled records, the question count, the total twice and the table, and the records' marks add up to the total |
| Handler.ProcessReply | index.js:140-193 | the result is the reconciliation of the records of the reply's blocks; it fails exactly when there are no records; on success the marks add up to the total |
| Handler.AdjustMarks | index.js:189-193 | the `reduce` loop and the update of `questions[0]` (as a sequence update) equal Reconcile, fails exactly on an empty list with a non-zero total, and hits the total for whole-hundredth marks |
| Handler.BuildQuestions | index.js:143-186 | the `forEach`/`push` loop builds exactly the records of all blocks in block order |
| Handler.TotalMarks | index.js:189 | the `reduce` loop computes the sum of the marks |
| Layout.RenderIsJoin | index.js:120-125 | the rendered reply is the blocks joined by 'Q' after an empty preamble |
| Layout.RenderBlocks | index.js:141 | a reply in the layout splits into exactly one block per question, in order |
| Layout.BlockTextPlain | index.js:141 | a rendered block holds no 'Q' and is not blank |
| Layout.BlockSubQuestions | index.js:146 | a rendered block's kept lines are its heading and its four labelled lines |
| Layout.BlockParts | index.js:148-151 | part a takes the a1 and a2 lines and part b takes the b1 and b2 lines; the heading is dropped |
| Layout.PlainTextOfLine | index.js:164 | a labelled line gives back exactly the text written after its label |
| Layout.BlockTexts | index.js:164 | the stripped texts of a rendered block's two parts are exactly the texts written |
| Layout.BlockRecords | index.js:156-185 | one rendered question gives four records: parts a, a, b, b, sub-parts 1, 2, 1, 2, the written texts, numbered k+1 |
| Layout.RecordsLaidOut | index.js:145-186 | rendered questions give record 4k+j as sub-question j of question k |
| Layout.RenderRoundTrip | index.js:141-186 | parsing a reply written exactly in the requested layout gives one block per question and four records per question carrying the written texts in layout order |
| Layout.LaidOutReconciled | index.js:189-193 | reconciliation keeps the layout of the records: number, part, sub-part and text of every record |
| Layout.ReconciledLayout | index.js:189-193 | reconciling laid-out records of whole hundredths fails only for an empty paper; otherwise the result keeps the layout and adds up to the total, and for a non-negative total every record after the first stays non-negative |
| Layout.EmittedRoundTrip | index.js:141-193 | for a reply in the layout, the emitted list fails only for an empty paper; otherwise it keeps the layout, its marks add up to the total, and for a non-negative total every record but the first has non-negative marks |

## Left out

- Express, multer, cors and dotenv setup, static serving and `app.listen`: I/O plumbing. The HTTP status codes and the JSON encoding are not modelled. Only the two failure kinds (missing image, generic failure) and the fields of the success body are.
- Whether the request carries a file is a boolean parameter of `Handler.GenerateQuestions`. The buffer and its base64 encoding are not modelled.
- The generative-model client and its `generateContent` call: a foreign network call. The reply is a parameter, and None stands for a call that threw. Logging with `console.error` is not modelled.
- The prompt text: a constant string without logic. Only the layout it asks for is modelled, in `Layout`.
- IEEE-754 arithmetic: all marks are exact `real`s. `Number(x.toFixed(2))` is `Allocation.Round2`, rounding half away from zero. Binary drift, `toFixed`'s behaviour on binary ties, and the inexact `reduce` sum are not modelled.
- `parseInt`: the parsed value is an `Option<int>`, where None stands for NaN.
- Allocation.AllocateMarks: requires a non-zero question count. The JavaScript division by zero, which gives Infinity or NaN, is not modelled; the only caller passes 2, 3 or 5.
- `login.php`: a database and session script with no link to the engine.
- Layout.RenderRoundTrip: stated only for texts that are non-empty, contain no 'Q' and no line break, and do not start or end with white space. Other texts are cut or trimmed by the parser, as the other lemmas describe. It says nothing about marks: their sign is stated in Assembler.RecordsMarksSign and Layout.EmittedRoundTrip, for a non-negative total only, because a negative `maxMarks` passes `|| 20` and gives non-positive marks (Handler.NegativeTotalKept).
- Layout.EmittedRoundTrip: the first record's marks are not bounded below, because the rounding difference added to it can be negative.
