/** Gear Ratios: `adventures/d3y2023.py`.

    The solver pads the schematic, scans it once to record the special
    characters, the gears, the numbers and the columns next to a special
    character, sums the numbers touching such a column (a value that is
    only logged), and returns the sum of the gear ratios: the product of
    the two numbers next to a gear that has exactly two.

    The four `defaultdict`s are maps from row to list; `Get` reads one the
    way a `defaultdict(list)` does.
 */
module GearRatios {
  import opened Prelude
  import opened Text
  import opened EngineGrid

  /** A `defaultdict(list)` keyed by row. */
  type Table<T> = map<int, seq<T>>

  function Get<T>(m: Table<T>, k: int): seq<T>
  {
    if k in m then m[k] else []
  }

  // ---------------------------------------------------------------------
  // The columns next to a special character

  /** Row `r`, column `i` holds a special character and comes before
      row `row`, column `col` in the scan. */
  predicate SymbolBefore(grid: seq<string>, r: int, i: int, row: int, col: int)
  {
    0 <= r < |grid| && 0 <= i < |grid[r]| && IsSymbol(grid[r][i]) && (r < row || (r == row && i < col))
  }

  /** Lines 53-55: a special character in row `r`, column `i` makes column
      `c` of row `k` valid. */
  predicate Near(r: int, i: int, k: int, c: int)
  {
    (k == r && (c == i - 1 || c == i + 1)) || ((k == r - 1 || k == r + 1) && i - 1 <= c <= i + 1)
  }

  /** Some special character scanned before row `row`, column `col` lies
      among the eight neighbours of row `k`, column `c`. */
  predicate MarkedBefore(grid: seq<string>, k: int, c: int, row: int, col: int)
  {
    SymbolBefore(grid, k, c - 1, row, col) || SymbolBefore(grid, k, c + 1, row, col) ||
    SymbolBefore(grid, k - 1, c - 1, row, col) || SymbolBefore(grid, k - 1, c, row, col) ||
    SymbolBefore(grid, k - 1, c + 1, row, col) || SymbolBefore(grid, k + 1, c - 1, row, col) ||
    SymbolBefore(grid, k + 1, c, row, col) || SymbolBefore(grid, k + 1, c + 1, row, col)
  }

  /** A special character lies among the eight neighbours of row `k`,
      column `c`. */
  predicate Marked(grid: seq<string>, k: int, c: int)
  {
    MarkedBefore(grid, k, c, |grid|, 0)
  }

  /** Passing one more cell of the scan. */
  lemma MarkedStep(grid: seq<string>, k: int, c: int, row: nat, col: nat)
    requires row < |grid| && col < |grid[row]|
    ensures MarkedBefore(grid, k, c, row, col + 1) <==>
      MarkedBefore(grid, k, c, row, col) || (IsSymbol(grid[row][col]) && Near(row, col, k, c))
  {
  }

  /** Passing the end of a row. */
  lemma MarkedRow(grid: seq<string>, k: int, c: int, row: nat)
    requires row < |grid|
    ensures MarkedBefore(grid, k, c, row, |grid[row]|) <==> MarkedBefore(grid, k, c, row + 1, 0)
  {
  }

  /** The neighbourhood the scan marks is the one lines 53-55 describe. */
  lemma MarkedNear(grid: seq<string>, k: int, c: int)
    ensures Marked(grid, k, c) <==>
      exists r, i :: 0 <= r < |grid| && 0 <= i < |grid[r]| && IsSymbol(grid[r][i]) && Near(r, i, k, c)
  {
    if exists r, i :: 0 <= r < |grid| && 0 <= i < |grid[r]| && IsSymbol(grid[r][i]) && Near(r, i, k, c) {
      var r, i :| 0 <= r < |grid| && 0 <= i < |grid[r]| && IsSymbol(grid[r][i]) && Near(r, i, k, c);
      assert SymbolBefore(grid, r, i, |grid|, 0);
    }
  }

  // ---------------------------------------------------------------------
  // The scan (lines 45-75)

  /** A place of the scan: a column of a row, or just past the last row. */
  predicate Place(grid: seq<string>, row: nat, col: nat)
  {
    (row < |grid| && col <= |grid[row]|) || (row == |grid| && col == 0)
  }

  /** How many cells of row `k` the scan has passed at row `row`, column `col`. */
  function Seen(grid: seq<string>, k: nat, row: nat, col: nat): (n: nat)
    requires k < |grid| && Place(grid, row, col)
    ensures n <= |grid[k]|
  {
    if k < row then |grid[k]| else if k == row then col else 0
  }

  ghost predicate ValidAt(grid: seq<string>, valid: Table<int>, row: nat, col: nat)
  {
    forall k, c :: c in Get(valid, k) <==> MarkedBefore(grid, k, c, row, col)
  }

  ghost predicate SpecialsAt(grid: seq<string>, specials: Table<int>, row: nat, col: nat)
    requires Place(grid, row, col)
  {
    forall k :: Get(specials, k) == if 0 <= k < |grid| then SymbolCols(grid[k], Seen(grid, k, row, col)) else []
  }

  ghost predicate GearsAt(grid: seq<string>, gears: Table<int>, row: nat, col: nat)
    requires Place(grid, row, col)
  {
    forall k :: Get(gears, k) == if 0 <= k < |grid| then GearCols(grid[k], Seen(grid, k, row, col)) else []
  }

  ghost predicate NumbersAt(grid: seq<string>, numbers: Table<Span>, row: nat, col: nat)
    requires Place(grid, row, col)
  {
    forall k :: Get(numbers, k) == if 0 <= k < |grid| then RunsUpTo(grid[k], Seen(grid, k, row, col)) else []
  }

  /** The numbers of row `k`, none for a row outside the schematic. */
  function RowRuns(grid: seq<string>, k: int): seq<Span>
  {
    if 0 <= k < |grid| then Runs(grid[k]) else []
  }

  /** The gears of row `k`. */
  function RowGears(grid: seq<string>, k: int): seq<int>
  {
    if 0 <= k < |grid| then GearCols(grid[k], |grid[k]|) else []
  }

  /** Lines 45-75: one pass over every cell.  `valid` ends holding, for each
      row, exactly the columns next to a special character; `specials` and
      `gears` the columns of the special characters and of the gears, left
      to right; `numbers` the numbers of each row, left to right. */
  method Scan(grid: seq<string>) returns (valid: Table<int>, specials: Table<int>, gears: Table<int>, numbers: Table<Span>)
    requires forall k :: 0 <= k < |grid| ==> Bordered(grid[k])
    ensures forall k, c :: c in Get(valid, k) <==> Marked(grid, k, c)
    ensures forall k :: Get(specials, k) == if 0 <= k < |grid| then SymbolCols(grid[k], |grid[k]|) else []
    ensures forall k :: Get(gears, k) == RowGears(grid, k)
    ensures forall k :: Get(numbers, k) == RowRuns(grid, k)
  {
    valid, specials, gears, numbers := map[], map[], map[], map[];
    for lineno := 0 to |grid|
      invariant ScannedTo(grid, valid, specials, gears, numbers, lineno, 0)
    {
      var line := grid[lineno];
      var start := 0;
      for index := 0 to |line|
        invariant ScannedTo(grid, valid, specials, gears, numbers, lineno, index)
        invariant Tracking(line, index, start)
      {
        valid, specials := ScanSymbol(grid, lineno, index, valid, specials);
        gears := ScanGear(grid, lineno, index, gears);
        numbers, start := ScanDigit(grid, lineno, index, start, numbers);
      }
      RowDone(grid, lineno, valid, specials, gears, numbers);
    }
    ScanDone(grid, valid, specials, gears, numbers);
  }

  ghost predicate ScannedTo(grid: seq<string>, valid: Table<int>, specials: Table<int>, gears: Table<int>, numbers: Table<Span>, row: nat, col: nat)
  {
    Place(grid, row, col) &&
    ValidAt(grid, valid, row, col) && SpecialsAt(grid, specials, row, col) &&
    GearsAt(grid, gears, row, col) && NumbersAt(grid, numbers, row, col)
  }

  lemma RowDone(grid: seq<string>, lineno: nat, valid: Table<int>, specials: Table<int>, gears: Table<int>, numbers: Table<Span>)
    requires lineno < |grid| && ScannedTo(grid, valid, specials, gears, numbers, lineno, |grid[lineno]|)
    ensures ScannedTo(grid, valid, specials, gears, numbers, lineno + 1, 0)
  {
    ValidRowDone(grid, lineno, valid);
    SpecialsRowDone(grid, lineno, specials);
    GearsRowDone(grid, lineno, gears);
    NumbersRowDone(grid, lineno, numbers);
  }

  lemma ValidRowDone(grid: seq<string>, lineno: nat, valid: Table<int>)
    requires lineno < |grid| && ValidAt(grid, valid, lineno, |grid[lineno]|)
    ensures ValidAt(grid, valid, lineno + 1, 0)
  {
    forall k, c ensures MarkedBefore(grid, k, c, lineno, |grid[lineno]|) <==> MarkedBefore(grid, k, c, lineno + 1, 0)
    {
      MarkedRow(grid, k, c, lineno);
    }
  }

  lemma SpecialsRowDone(grid: seq<string>, lineno: nat, specials: Table<int>)
    requires lineno < |grid| && SpecialsAt(grid, specials, lineno, |grid[lineno]|)
    ensures SpecialsAt(grid, specials, lineno + 1, 0)
  {
    forall k | 0 <= k < |grid| ensures Seen(grid, k, lineno, |grid[lineno]|) == Seen(grid, k, lineno + 1, 0)
    {
    }
  }

  lemma GearsRowDone(grid: seq<string>, lineno: nat, gears: Table<int>)
    requires lineno < |grid| && GearsAt(grid, gears, lineno, |grid[lineno]|)
    ensures GearsAt(grid, gears, lineno + 1, 0)
  {
    forall k | 0 <= k < |grid| ensures Seen(grid, k, lineno, |grid[lineno]|) == Seen(grid, k, lineno + 1, 0)
    {
    }
  }

  lemma NumbersRowDone(grid: seq<string>, lineno: nat, numbers: Table<Span>)
    requires lineno < |grid| && NumbersAt(grid, numbers, lineno, |grid[lineno]|)
    ensures NumbersAt(grid, numbers, lineno + 1, 0)
  {
    forall k | 0 <= k < |grid| ensures Seen(grid, k, lineno, |grid[lineno]|) == Seen(grid, k, lineno + 1, 0)
    {
    }
  }

  lemma ScanDone(grid: seq<string>, valid: Table<int>, specials: Table<int>, gears: Table<int>, numbers: Table<Span>)
    requires ScannedTo(grid, valid, specials, gears, numbers, |grid|, 0)
    ensures forall k, c :: c in Get(valid, k) <==> Marked(grid, k, c)
    ensures forall k :: Get(specials, k) == if 0 <= k < |grid| then SymbolCols(grid[k], |grid[k]|) else []
    ensures forall k :: Get(gears, k) == RowGears(grid, k)
    ensures forall k :: Get(numbers, k) == RowRuns(grid, k)
  {
    forall k | 0 <= k < |grid| ensures Seen(grid, k, |grid|, 0) == |grid[k]|
    {
    }
  }

  /** Lines 48-55 on one cell. */
  method ScanSymbol(grid: seq<string>, lineno: nat, index: nat, valid: Table<int>, specials: Table<int>)
    returns (valid': Table<int>, specials': Table<int>)
    requires lineno < |grid| && index < |grid[lineno]|
    requires ValidAt(grid, valid, lineno, index) && SpecialsAt(grid, specials, lineno, index)
    ensures ValidAt(grid, valid', lineno, index + 1) && SpecialsAt(grid, specials', lineno, index + 1)
  {
    valid', specials' := valid, specials;
    var character := grid[lineno][index];
    if !IsDigit(character) && character != '.' {
      specials' := specials'[lineno := Get(specials', lineno) + [index]];
      valid' := valid'[lineno := Get(valid', lineno) + [index - 1, index + 1]];
      valid' := valid'[lineno - 1 := Get(valid', lineno - 1) + [index - 1, index, index + 1]];
      valid' := valid'[lineno + 1 := Get(valid', lineno + 1) + [index - 1, index, index + 1]];
    }
    SpecialsStep(grid, lineno, index, specials, specials');
    ValidStep(grid, lineno, index, valid, valid');
  }

  lemma SpecialsStep(grid: seq<string>, lineno: nat, index: nat, specials: Table<int>, specials': Table<int>)
    requires lineno < |grid| && index < |grid[lineno]|
    requires SpecialsAt(grid, specials, lineno, index)
    requires specials' == if IsSymbol(grid[lineno][index]) then specials[lineno := Get(specials, lineno) + [index]] else specials
    ensures SpecialsAt(grid, specials', lineno, index + 1)
  {
    forall k ensures Get(specials', k) == if 0 <= k < |grid| then SymbolCols(grid[k], Seen(grid, k, lineno, index + 1)) else []
    {
      SpecialsRow(grid, lineno, index, specials, specials', k);
    }
  }

  /** The same for one row `k`. */
  lemma SpecialsRow(grid: seq<string>, lineno: nat, index: nat, specials: Table<int>, specials': Table<int>, k: int)
    requires lineno < |grid| && index < |grid[lineno]|
    requires Get(specials, k) == if 0 <= k < |grid| then SymbolCols(grid[k], Seen(grid, k, lineno, index)) else []
    requires specials' == if IsSymbol(grid[lineno][index]) then specials[lineno := Get(specials, lineno) + [index]] else specials
    ensures Get(specials', k) == if 0 <= k < |grid| then SymbolCols(grid[k], Seen(grid, k, lineno, index + 1)) else []
  {
    if k != lineno {
      assert Get(specials', k) == Get(specials, k);
      if 0 <= k < |grid| {
        assert Seen(grid, k, lineno, index + 1) == Seen(grid, k, lineno, index);
      }
    }
  }

  /** Lines 53-55 on a special character in row `lineno`, column `index`. */
  function Marking(valid: Table<int>, lineno: int, index: int): Table<int>
  {
    var v1 := valid[lineno := Get(valid, lineno) + [index - 1, index + 1]];
    var v2 := v1[lineno - 1 := Get(v1, lineno - 1) + [index - 1, index, index + 1]];
    v2[lineno + 1 := Get(v2, lineno + 1) + [index - 1, index, index + 1]]
  }

  lemma ValidStep(grid: seq<string>, lineno: nat, index: nat, valid: Table<int>, valid': Table<int>)
    requires lineno < |grid| && index < |grid[lineno]|
    requires ValidAt(grid, valid, lineno, index)
    requires valid' == if IsSymbol(grid[lineno][index]) then Marking(valid, lineno, index) else valid
    ensures ValidAt(grid, valid', lineno, index + 1)
  {
    forall k, c ensures c in Get(valid', k) <==> MarkedBefore(grid, k, c, lineno, index + 1)
    {
      ValidCell(grid, lineno, index, valid, valid', k, c);
    }
  }

  /** The same for row `k`, column `c`. */
  lemma ValidCell(grid: seq<string>, lineno: nat, index: nat, valid: Table<int>, valid': Table<int>, k: int, c: int)
    requires lineno < |grid| && index < |grid[lineno]|
    requires c in Get(valid, k) <==> MarkedBefore(grid, k, c, lineno, index)
    requires valid' == if IsSymbol(grid[lineno][index]) then Marking(valid, lineno, index) else valid
    ensures c in Get(valid', k) <==> MarkedBefore(grid, k, c, lineno, index + 1)
  {
    MarkedStep(grid, k, c, lineno, index);
    if IsSymbol(grid[lineno][index]) {
      assert c in Get(valid', k) <==> c in Get(valid, k) || Near(lineno, index, k, c);
    }
  }

  /** Lines 56-58 on one cell. */
  method ScanGear(grid: seq<string>, lineno: nat, index: nat, gears: Table<int>) returns (gears': Table<int>)
    requires lineno < |grid| && index < |grid[lineno]|
    requires GearsAt(grid, gears, lineno, index)
    ensures GearsAt(grid, gears', lineno, index + 1)
  {
    gears' := gears;
    var character := grid[lineno][index];
    if !IsDigit(character) && character == '*' {
      gears' := gears'[lineno := Get(gears', lineno) + [index]];
    }
    forall k ensures Get(gears', k) == if 0 <= k < |grid| then GearCols(grid[k], Seen(grid, k, lineno, index + 1)) else []
    {
      GearsRow(grid, lineno, index, gears, gears', k);
    }
  }

  /** One cell of the gear scan, seen from row `k`. */
  lemma GearsRow(grid: seq<string>, lineno: nat, index: nat, gears: Table<int>, gears': Table<int>, k: int)
    requires lineno < |grid| && index < |grid[lineno]|
    requires Get(gears, k) == if 0 <= k < |grid| then GearCols(grid[k], Seen(grid, k, lineno, index)) else []
    requires gears' == if IsGear(grid[lineno][index]) then gears[lineno := Get(gears, lineno) + [index]] else gears
    ensures Get(gears', k) == if 0 <= k < |grid| then GearCols(grid[k], Seen(grid, k, lineno, index + 1)) else []
  {
    if k != lineno {
      assert Get(gears', k) == Get(gears, k);
      if 0 <= k < |grid| {
        assert Seen(grid, k, lineno, index + 1) == Seen(grid, k, lineno, index);
      }
    }
  }

  /** `start` is where the run of digits just passed begins. */
  predicate Tracking(line: string, index: nat, start: nat)
  {
    0 < index <= |line| && IsDigit(line[index - 1]) ==> start == RunStart(line, index - 1)
  }

  /** Lines 59-75 on one cell: a number is recorded at its last digit. */
  method ScanDigit(grid: seq<string>, lineno: nat, index: nat, start: nat, numbers: Table<Span>)
    returns (numbers': Table<Span>, start': nat)
    requires lineno < |grid| && index < |grid[lineno]| && Bordered(grid[lineno])
    requires NumbersAt(grid, numbers, lineno, index)
    requires Tracking(grid[lineno], index, start)
    ensures NumbersAt(grid, numbers', lineno, index + 1)
    ensures Tracking(grid[lineno], index + 1, start')
  {
    numbers', start' := numbers, start;
    var line := grid[lineno];
    var character := line[index];
    if IsDigit(character) {
      if !IsDigit(line[index - 1]) {
        start' := index;
      }
      assert start' == RunStart(line, index);
      if start' == index && !IsDigit(line[index + 1]) {
        numbers' := numbers'[lineno := Get(numbers', lineno) + [Span(DecimalValue(line[index..index + 1]), start', index)]];
      } else if IsDigit(line[index - 1]) && IsDigit(line[index + 1]) {
      } else if IsDigit(line[index - 1]) && !IsDigit(line[index + 1]) {
        numbers' := numbers'[lineno := Get(numbers', lineno) + [Span(DecimalValue(line[start'..index + 1]), start', index)]];
      }
    }
    NumbersStep(grid, lineno, index, numbers, numbers');
  }

  lemma NumbersStep(grid: seq<string>, lineno: nat, index: nat, numbers: Table<Span>, numbers': Table<Span>)
    requires lineno < |grid| && index < |grid[lineno]|
    requires NumbersAt(grid, numbers, lineno, index)
    requires numbers' == if EndsRun(grid[lineno], index) then numbers[lineno := Get(numbers, lineno) + [RunAt(grid[lineno], index)]] else numbers
    ensures NumbersAt(grid, numbers', lineno, index + 1)
  {
    forall k ensures Get(numbers', k) == if 0 <= k < |grid| then RunsUpTo(grid[k], Seen(grid, k, lineno, index + 1)) else []
    {
      NumbersRow(grid, lineno, index, numbers, numbers', k);
    }
  }

  /** One cell of the number scan, seen from row `k`. */
  lemma NumbersRow(grid: seq<string>, lineno: nat, index: nat, numbers: Table<Span>, numbers': Table<Span>, k: int)
    requires lineno < |grid| && index < |grid[lineno]|
    requires Get(numbers, k) == if 0 <= k < |grid| then RunsUpTo(grid[k], Seen(grid, k, lineno, index)) else []
    requires numbers' == if EndsRun(grid[lineno], index) then numbers[lineno := Get(numbers, lineno) + [RunAt(grid[lineno], index)]] else numbers
    ensures Get(numbers', k) == if 0 <= k < |grid| then RunsUpTo(grid[k], Seen(grid, k, lineno, index + 1)) else []
  {
    if k != lineno {
      assert Get(numbers', k) == Get(numbers, k);
      if 0 <= k < |grid| {
        assert Seen(grid, k, lineno, index + 1) == Seen(grid, k, lineno, index);
      }
    } else {
      var line := grid[lineno];
      assert Seen(grid, k, lineno, index) == index && Seen(grid, k, lineno, index + 1) == index + 1;
      assert RunsUpTo(line, index + 1) == RunsUpTo(line, index) + (if EndsRun(line, index) then [RunAt(line, index)] else []);
    }
  }
}
