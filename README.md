# Advent of Code 2023, days 1 to 4, in Dafny

This project models four puzzle solvers of the `adventures` repository and
proves properties about them. Each solver takes the whole puzzle text as a
string and returns an integer.

- **Trebuchet** (`adventures/d1y2023.py` `run`, and `adventures/trebuchet.py`
  `calibrate` on the file's contents). The solver builds a table of
  overlapping number words such as `oneight` → `18`. It rewrites each line
  by successive `str.replace` passes, keeps the line's digits, and adds up
  `int(first + last)`. Modules: `Calibration` (calibration.dfy), `DayOne`
  (day_one.dfy) and `Trebuchet` (trebuchet.dfy).
- **Cube Conundrum** (`adventures/d2y2023.py` `run`). A first pass checks
  every draw against the cubes in the bag; the sum of the possible game ids
  is only logged. A second pass takes the largest count per colour and
  returns the sum of the products. Modules: `CubeConundrum`
  (cube_conundrum.dfy) for the solver, and `CubeGames` (cube_games.dfy) for
  the games behind well-formed text and what the solver computes for them.
- **Gear Ratios** (`adventures/d3y2023.py` `run`). The solver pads the
  schematic and scans it once. It records special characters, gears,
  numbers and the columns next to a special character, then cleans up
  those columns. It sums the part numbers, which is only logged, and
  returns the sum of the gear ratios. Modules: `EngineGrid`
  (engine_grid.dfy) for the grid and what lies in it, `GearRatios`
  (gear_ratios.dfy) for the scan, and `GearSums` (gear_sums.dfy) for the
  rest.
- **Scratchcards** (`adventures/d4y2023.py` `run`). Each card scores
  `2 ** (winners - 1)` points. Each copy of a card wins one copy of each of
  the next `winners` cards. The solver returns the points. Modules:
  `Scratchcards` (scratchcards.dfy) for the solver, and `ScratchcardText`
  (scratchcard_text.dfy) for cards written the way the puzzle prints them.

`Prelude` (prelude.dfy) holds the shared data types:

- `Outcome` is a value or the Python exception (`IndexError`, `ValueError`,
  `KeyError`) the solver would raise.
- `Sum` and `After` collect values line by line.

`Text` (text.dfy) models the Python string operations the solvers use:

- `split` on a single character and `splitlines`;
- `"\n".join`, `str.replace` and the `in` test on strings;
- `str.isdigit`, `int` and `str` on non-negative numbers.

Each solver's loops are methods whose postconditions tie the result to a
specification function. Each function in turn is linked by lemmas to a
description in the puzzle's own terms:

- the combination table exactly as a table of joinable word pairs;
- a game as a list of draws;
- the schematic as a grid with maximal runs of digits and neighbourhoods;
- a card as its id and two lists of numbers.

Two facts about the code are modelled as it behaves:

- `d3y2023.py` returns only the gear-ratio sum. The part-number sum is
  computed and logged, then discarded (lines 145-148).
- On an empty string:
  - days 1, 2 and 4 return 0;
  - day 3 raises the `IndexError` of `input.splitlines()[0]`.

## Model

| member | source | states |
|---|---|---|
| Calibration.WordsShape | adventures/d1y2023.py:13-24 | the words table has ten entries, each a non-empty word standing for one decimal digit |
| Calibration.BuildCombinations | adventures/d1y2023.py:25-33 | the nested loop leaves `combinations` equal to the table the specification `CombinationsOf` builds pair by pair, in loop order, with overwriting assignment |
| Calibration.AssignShape | adventures/d1y2023.py:31-33 | dictionary assignment adds exactly its key–value entry, keeps every other key, and never duplicates a key |
| Calibration.CombinationsShape | adventures/d1y2023.py:28-33 | a combination entry exists exactly for each pair of words whose last and first letters agree; its key is `front[:-1] + back`, its value the two digits of front then back, and no key occurs twice |
| Calibration.WordsCombinations | adventures/d1y2023.py:28-33 | for the actual words, the combinations table is exactly oneight→18, twone→21, threeight→38, fiveight→58, sevenine→79, eightwo→82, eighthree→83, nineight→98, zerone→01, in insertion order |
| Calibration.Rewrite | adventures/d1y2023.py:39-43 | the two replace loops turn the line into `Rewritten`: every combination replaced in insertion order first, then every single word, `zero` included |
| Calibration.WordFreeLine | adventures/d1y2023.py:39-43 | a line in which no number word occurs comes out of the replace passes unchanged |
| Calibration.LineCalibration | adventures/d1y2023.py:45-47 | the calibration raises `IndexError` exactly when no digit is left after rewriting; otherwise it is `10 * first + last` of the remaining digits, at most 99 |
| Calibration.WordFreeCalibration | adventures/d1y2023.py:39-47 | a line without number words is calibrated by its own first and last digit, or raises when it has none |
| Calibration.SumCalibrations | adventures/d1y2023.py:36-53 | the line loop returns `CalibrationSum`: the sum of the per-line calibrations, or the first line's `IndexError` |
| Calibration.CalibrationStep | adventures/d1y2023.py:36-49 | one turn of the line loop appends that line's calibration to those collected, or stops with its exception |
| Calibration.CalibrationsShape | adventures/d1y2023.py:36-49 | the calibrations list succeeds exactly when every line does; it then has one entry per line, each that line's calibration |
| Calibration.CalibrationSumBounds | adventures/d1y2023.py:47-53 | the sum fails, with `IndexError`, exactly when some line keeps no digit; otherwise it is at most 99 times the number of lines |
| DayOne.Run | adventures/d1y2023.py:5-53 | `run(input)` is `CalibrationSum` of the words table on the input |
| Trebuchet.Calibrate | adventures/trebuchet.py:12-58 | `calibrate` on the file contents is `CalibrationSum` of the same table, hence the same result as `DayOne.Run` on the same text |
| CubeConundrum.CheckGame | adventures/d2y2023.py:37-60 | one game adds its id to `valid_games` exactly when no draw exceeds its limit; the scan stops at the first draw over the limit; the id is parsed only for a valid game |
| CubeConundrum.PossibleGameSum | adventures/d2y2023.py:34-62 | the first pass computes `PossibleIdSum`: the sum of the ids the games add, or the first exception |
| CubeConundrum.RollDiceRaises | adventures/d2y2023.py:74-79 | a roll never lowers a colour's minimum and keeps the same three colours |
| CubeConundrum.RoundsRaise | adventures/d2y2023.py:70-79 | the rounds of a game never lower any minimum |
| CubeConundrum.CheckRoll | adventures/d2y2023.py:74-79 | the loop over the colours on one roll computes `RollDice` |
| CubeConundrum.FewestCubes | adventures/d2y2023.py:66-79 | one game's triple loop computes `GameMinimums`, whose keys are the three colours |
| CubeConundrum.PowerSum | adventures/d2y2023.py:64-84 | the second pass returns the sum over the lines of red × green × blue minimums, or the first exception |
| CubeConundrum.Run | adventures/d2y2023.py:14-84 | `run` raises what the first pass raises, and otherwise returns the second pass's score |
| CubeGames.MostIsLargest | adventures/d2y2023.py:66-79 | the largest count of a colour bounds every draw of that colour, and unless it is 0 some draw has exactly that count |
| CubeGames.PossibleIdText | adventures/d2y2023.py:30-60 | on the text of a well-formed game, the first pass keeps its id exactly when every draw is within 12 red, 13 green, 14 blue |
| CubeGames.GameLine | adventures/d2y2023.py:37 | the id is the token after `Game ` and before the colon |
| CubeGames.GameMinimumsText | adventures/d2y2023.py:66-81 | on the text of a well-formed game, each colour's minimum is the largest count drawn of it (0 if never drawn), and the game's power is the product of the three |
| CubeGames.PossibleIdsOfGames | adventures/d2y2023.py:59-60 | a number is among the kept ids exactly when some possible game has it for id |
| CubeGames.PuzzleText | adventures/d2y2023.py:34-84 | on well-formed games, the logged sum is the sum of the possible ids and `run` returns the sum of the powers of the fewest cubes |
| EngineGrid.ExtendedLines | adventures/d3y2023.py:34-40 | the extended input has a row of dots as wide as the first line above and below the input's lines |
| EngineGrid.PaddedRows | adventures/d3y2023.py:34-43 | the padded schematic has those rows, each wrapped in `...` on both sides |
| EngineGrid.GridBordered | adventures/d3y2023.py:41-43 | every padded row begins and ends with a non-digit, so the look-behind and look-ahead of the scan stay inside the row |
| EngineGrid.RunsUpToAreRuns | adventures/d3y2023.py:59-75 | every recorded number is a maximal run of digits with non-digits on both sides and its decimal value; numbers come left to right without touching |
| EngineGrid.RunsUpToComplete | adventures/d3y2023.py:59-75 | every maximal run of digits is recorded |
| EngineGrid.GearsAreSymbols | adventures/d3y2023.py:48-58 | every gear column is also a special-character column |
| GearRatios.MarkedNear | adventures/d3y2023.py:53-55 | a column is valid exactly when a special character lies among its eight neighbours, diagonal ones included |
| GearRatios.Scan | adventures/d3y2023.py:45-75 | after the scan, `valid` holds exactly the columns next to a special character, `specials` and `gears` the columns of special characters and gears, and `numbers` the maximal runs of each row, all left to right |
| GearRatios.ScanSymbol | adventures/d3y2023.py:48-55 | one cell of a special character records its column and marks `i-1, i+1` in its row and `i-1, i, i+1` in the rows above and below |
| GearRatios.ScanGear | adventures/d3y2023.py:56-58 | one `*` cell records its column in `gears` |
| GearRatios.ScanDigit | adventures/d3y2023.py:59-75 | one digit cell tracks where its run starts and records the number at its last digit |
| GearSums.SortedSet | adventures/d3y2023.py:79 | `sorted(set(xs))` is strictly increasing and has the elements of `xs` |
| GearSums.IncreasingUnique | adventures/d3y2023.py:79 | two strictly increasing lists with the same elements are equal, so `sorted(set(xs))` is determined by the elements of `xs` |
| GearSums.Cleanup | adventures/d3y2023.py:78-79 | the clean-up keeps the same rows and the same columns, and leaves each row's list strictly increasing |
| GearSums.AddPart | adventures/d3y2023.py:85-96 | a number adds its value once when some column in `[start, stop]` is valid, and nothing otherwise |
| GearSums.PartSum | adventures/d3y2023.py:83-96 | the part sum is `PartTotal` of the valid columns and the numbers, row by row |
| GearSums.PartTotalGrid | adventures/d3y2023.py:77-96 | after the scan and the clean-up, the part sum is the total of the numbers with a special character next to one of their digits |
| GearSums.PartsBound | adventures/d3y2023.py:87-96 | in one row, each number is added at most once, so the row's part sum is at most the total of the row's numbers |
| GearSums.PartTotalBound | adventures/d3y2023.py:83-96 | over all the rows, the part sum is at most the total of every number in the table of numbers |
| GearSums.EnginePartsBound | adventures/d3y2023.py:77-96 | over the whole schematic, the total of the part numbers is at most the total of all its numbers |
| GearSums.OverlapWindow | adventures/d3y2023.py:111-117 | a number overlaps `[index-1, index, index+1]` exactly when its columns meet those three |
| GearSums.Collect | adventures/d3y2023.py:113-138 | each of the three loops appends the values of the numbers of a row that overlap the gear's locations, left to right |
| GearSums.RatioOfGear | adventures/d3y2023.py:110-143 | one gear adds the value of its parts from its own row, the row above and the row below |
| GearSums.GearRatioSum | adventures/d3y2023.py:104-143 | the ratio is `RatioTotal` of the gears and numbers, row by row |
| GearSums.Around | adventures/d3y2023.py:113-138 | the numbers next to a gear's column are exactly those of the row whose columns meet `index-1 .. index+1` |
| GearSums.TouchingAround | adventures/d3y2023.py:113-138 | the collected values are the values of those numbers, in order |
| GearSums.GearNumbersAreParts | adventures/d3y2023.py:48-55 | every number next to a gear is a part number |
| GearSums.GearPartsNumbers | adventures/d3y2023.py:104-143 | with the scanned numbers, a gear's contribution is the product of the two numbers next to it when there are exactly two, and 0 otherwise |
| GearSums.RatioTotalGrid | adventures/d3y2023.py:45-143 | after the scan, the returned ratio is the total over the schematic's gears of their gear ratio |
| GearSums.Run | adventures/d3y2023.py:7-148 | `run` returns the gear-ratio total of the padded schematic, or raises `IndexError` on an input without lines |
| Scratchcards.Initial | adventures/d4y2023.py:15-17 | the cards are exactly `1 .. n`, with one copy each |
| Scratchcards.Deal | adventures/d4y2023.py:15-17 | the loop builds `Initial(n)` |
| Scratchcards.MatchesRange | adventures/d4y2023.py:36-39 | the winners number at most the numbers held; 0 exactly when none is a winning number, all exactly when each is |
| Scratchcards.CountWinners | adventures/d4y2023.py:36-39 | the loop counts the held numbers, duplicates included, that occur among the winning numbers |
| Scratchcards.PointsDouble | adventures/d4y2023.py:40-41 | a card without winners scores 0, one winner scores 1, and each further winner doubles the score |
| Scratchcards.Cascade | adventures/d4y2023.py:42-47 | each existing card among `id + 1 .. id + winners` gains `scratchcards[id]` copies; ids past the last card are skipped |
| Scratchcards.WonGrows | adventures/d4y2023.py:42-47 | the cascade keeps the same cards, lowers no count, and changes no card outside `id + 1 .. id + winners` |
| Scratchcards.Turn | adventures/d4y2023.py:36-47 | one card adds its points and its copies, changes nothing without winners, or raises the `KeyError` of an unknown id |
| Scratchcards.PlayRaises | adventures/d4y2023.py:19-48 | once a line raises, the whole run raises that exception |
| Scratchcards.Run | adventures/d4y2023.py:5-53 | `run` plays the lines in order from one copy of each card and returns the points, or the first exception |
| Scratchcards.PlayPoints | adventures/d4y2023.py:19-53 | when `run` returns, every line was a card, the result is the total of their points, the cards are still `1 .. n`, and each has at least one copy |
| Scratchcards.PlayKnownIds | adventures/d4y2023.py:19-48 | when every line is a card with an id among `1 .. n`, `run` raises nothing |
| ScratchcardText.ParseCardText | adventures/d4y2023.py:20-34 | the text of a card, printed with one space between `Card` and its id, parses back to its id, winning numbers and held numbers |
| ScratchcardText.CardsText | adventures/d4y2023.py:19-34 | the lines of a pile of printed cards parse back to those cards |
| ScratchcardText.PileText | adventures/d4y2023.py:5-53 | on the text of cards numbered within `1 .. n`, `run` returns the total of their points |

## Left out

- Logging: every `log.debug` and `log.info` call is a no-op. The same goes for the logging set-up and the `verbose` switch of `d2y2023.py`.
- Trebuchet.Calibrate: takes the file's contents as a string. The `open`/`read` of the file and the `print` calls of `trebuchet.py` are I/O and are not modelled.
- `adventures/cli/cli.py` (option parsing, the HTTP request, writing the input file) is not part of this model. Neither is the empty `adventures/dXyX.py` template.
- The tests in `tests/` depend on puzzle input files that are not available, so their expected totals are not restated.
- Text: `str.isdigit` is narrowed to the ASCII digits `0`-`9`. `int` is narrowed to a non-empty string of those digits: no sign, no surrounding whitespace, no underscores. Python accepts more than this.
- Text: `splitlines` splits at `\n` only. Python also splits at `\r`, `\r\n` and other line boundaries.
- Text: `replace` is modelled only for a non-empty pattern, the only kind the solvers use.
- GearRatios.Scan: requires every row to begin and end with a non-digit, as the padding guarantees. On unpadded rows Python's `line[-1]` would wrap around, and `line[index + 1]` past the end would raise; neither is modelled.
- GearSums.Cleanup: the order of each row's columns before the clean-up is not tracked. Only their membership is, since `sorted(set(...))` depends on nothing else.
- GearSums.PartSum and GearSums.GearRatioSum: iterate over the rows in increasing order, not over the keys of the `defaultdict`s in insertion order. Rows without entries add nothing, and addition does not depend on order, so the sums are the same.
- GearSums: the `defaultdict` reads at lines 89 and 107-109 insert empty lists for missing rows. They change neither the result nor the dictionaries being iterated, so they are not modelled.
- GearSums.Run: the part-number sum is computed and proved against the grid, but the solver only logs it. `Run` returns the gear-ratio sum, as the code does.
- Scratchcards.Run: the total number of cards that line 51 logs is not computed.
- Scratchcards.ParseCard: a card id is modelled as a non-negative number, because `int` is narrowed to digit strings. A signed id such as `-3`, which Python would read, raises `ValueError` in the model.
- CubeConundrum.PossibleGameSum: the sum of the possible ids is only logged by the solver. The model computes it, and `Run` keeps only its exceptions.
