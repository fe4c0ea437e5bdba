/** Gear Ratios after the scan (`adventures/d3y2023.py`, lines 77-148): the
    clean-up of the valid columns, the sum of the part numbers, the sum of
    the gear ratios, and the solver as a whole. */
module GearSums {
  import opened Prelude
  import opened Text
  import opened EngineGrid
  import opened GearRatios

  // ---------------------------------------------------------------------
  // Clean-up (lines 77-79)

  predicate Increasing(xs: seq<int>)
  {
    forall a, b :: 0 <= a < b < |xs| ==> xs[a] < xs[b]
  }

  /** Adds `x` to an increasing list unless it is there already. */
  function Insert(x: int, s: seq<int>): (r: seq<int>)
    requires Increasing(s)
    ensures Increasing(r)
    ensures forall y :: y in r <==> y == x || y in s
  {
    if s == [] then [x]
    else if x < s[0] then
      assert forall b :: 0 <= b < |s| ==> s[0] <= s[b];
      [x] + s
    else if x == s[0] then s
    else
      var rest := Insert(x, s[1..]);
      assert forall y :: y in s[1..] ==> s[0] < y by {
        forall y | y in s[1..] ensures s[0] < y
        {
          var m :| 0 <= m < |s[1..]| && s[1..][m] == y;
          assert s[1 + m] == y;
        }
      }
      assert forall j :: 0 <= j < |rest| ==> rest[j] in rest;
      [s[0]] + rest
  }

  /** `sorted(set(xs))` */
  function SortedSet(xs: seq<int>): (r: seq<int>)
    ensures Increasing(r)
    ensures forall y :: y in r <==> y in xs
  {
    if xs == [] then []
    else
      assert xs == xs[..|xs| - 1] + [xs[|xs| - 1]];
      Insert(xs[|xs| - 1], SortedSet(xs[..|xs| - 1]))
  }

  /** An increasing list is fixed by its elements, so `sorted(set(xs))` is
      the one increasing list holding the elements of `xs`. */
  lemma {:induction false} IncreasingUnique(a: seq<int>, b: seq<int>)
    requires Increasing(a) && Increasing(b)
    requires forall y :: y in a <==> y in b
    ensures a == b
    decreases |a|
  {
    if a != [] {
      assert a[0] in a;
    }
    if b != [] {
      assert b[0] in b;
    }
    if a != [] {
      assert b[0] in a && a[0] in b;
      var i :| 0 <= i < |a| && a[i] == b[0];
      var j :| 0 <= j < |b| && b[j] == a[0];
      assert a[0] <= a[i] && b[0] <= b[j];
      forall y ensures y in a[1..] <==> y in b[1..]
      {
        TailElements(a, y);
        TailElements(b, y);
      }
      IncreasingUnique(a[1..], b[1..]);
      assert a == [a[0]] + a[1..] && b == [b[0]] + b[1..];
    }
  }

  lemma TailElements(s: seq<int>, y: int)
    requires Increasing(s) && s != []
    ensures y in s[1..] <==> y in s && y != s[0]
  {
    if y in s && y != s[0] {
      var m :| 0 <= m < |s| && s[m] == y;
      assert s[1..][m - 1] == y;
    }
    if y in s[1..] {
      var m :| 0 <= m < |s[1..]| && s[1..][m] == y;
      assert s[1 + m] == y;
    }
  }

  lemma SortedSetIs(xs: seq<int>, ys: seq<int>)
    requires Increasing(ys) && forall y :: y in ys <==> y in xs
    ensures ys == SortedSet(xs)
  {
    IncreasingUnique(ys, SortedSet(xs));
  }

  /** Lines 78-79: every list of `valid` becomes its elements in increasing
      order, each once. */
  method Cleanup(valid: Table<int>) returns (cleaned: Table<int>)
    ensures cleaned.Keys == valid.Keys
    ensures forall k :: k in valid ==> cleaned[k] == SortedSet(valid[k])
    ensures forall k :: Increasing(Get(cleaned, k))
    ensures forall k, c :: c in Get(cleaned, k) <==> c in Get(valid, k)
  {
    cleaned := valid;
    var keys := valid.Keys;
    while keys != {}
      invariant keys <= valid.Keys && cleaned.Keys == valid.Keys
      invariant forall k :: k in valid && k !in keys ==> cleaned[k] == SortedSet(valid[k])
      invariant forall k :: k in keys ==> cleaned[k] == valid[k]
      decreases keys
    {
      HasKey(keys);
      var key :| key in keys;
      cleaned := cleaned[key := SortedSet(cleaned[key])];
      keys := keys - {key};
    }
  }

  lemma HasKey(keys: set<int>)
    requires keys != {}
    ensures exists key :: key in keys
  {
    if forall key :: key !in keys {
      assert false;
    }
  }

  // ---------------------------------------------------------------------
  // The part numbers (lines 83-96)

  /** Lines 88-89: some column of the number is in `cols`. */
  predicate Touches(sp: Span, cols: seq<int>)
  {
    exists idx :: sp.start <= idx <= sp.stop && idx in cols
  }

  /** The total of the numbers that touch `cols`. */
  function PartsOf(runs: seq<Span>, cols: seq<int>): nat
  {
    if runs == [] then 0
    else
      var last := runs[|runs| - 1];
      PartsOf(runs[..|runs| - 1], cols) + (if Touches(last, cols) then last.value else 0)
  }

  /** The same over the rows before `rows`. */
  function PartTotal(valid: Table<int>, numbers: Table<Span>, rows: nat): nat
  {
    if rows == 0 then 0
    else PartTotal(valid, numbers, rows - 1) + PartsOf(Get(numbers, rows - 1), Get(valid, rows - 1))
  }

  /** Lines 87-96 on one number: its value is added once if one of its
      columns is in `cols`, and not at all otherwise. */
  method AddPart(sum: nat, sp: Span, cols: seq<int>) returns (sum': nat)
    ensures sum' == sum + (if Touches(sp, cols) then sp.value else 0)
  {
    sum' := sum;
    var partAdded := false;
    var idx := sp.start;
    while idx < sp.stop + 1
      invariant sp.start <= idx && (idx <= sp.stop + 1 || idx == sp.start)
      invariant partAdded <==> exists j :: sp.start <= j < idx && j in cols
      invariant sum' == sum + (if partAdded then sp.value else 0)
      decreases sp.stop + 1 - idx
    {
      if idx in cols {
        if !partAdded {
          sum' := sum' + sp.value;
          partAdded := true;
        }
      }
      idx := idx + 1;
    }
  }

  /** Lines 83-96, over the rows `0 .. height - 1`. */
  method PartSum(valid: Table<int>, numbers: Table<Span>, height: nat) returns (sum: nat)
    ensures sum == PartTotal(valid, numbers, height)
  {
    sum := 0;
    for index := 0 to height
      invariant sum == PartTotal(valid, numbers, index)
    {
      var row := Get(numbers, index);
      for j := 0 to |row|
        invariant sum == PartTotal(valid, numbers, index) + PartsOf(row[..j], Get(valid, index))
      {
        assert row[..j + 1][..j] == row[..j];
        sum := AddPart(sum, row[j], Get(valid, index));
      }
      assert row[..|row|] == row;
    }
  }

  /** A part number: one of its digits has a special character among its
      eight neighbours. */
  predicate IsPart(grid: seq<string>, k: int, sp: Span)
  {
    exists c :: sp.start <= c <= sp.stop && Marked(grid, k, c)
  }

  /** The total of the part numbers among `runs`, in row `k`. */
  function PartNumbers(grid: seq<string>, k: int, runs: seq<Span>): nat
  {
    if runs == [] then 0
    else
      var last := runs[|runs| - 1];
      PartNumbers(grid, k, runs[..|runs| - 1]) + (if IsPart(grid, k, last) then last.value else 0)
  }

  /** The total of the part numbers in the rows before `rows`. */
  function EngineParts(grid: seq<string>, rows: nat): nat
  {
    if rows == 0 then 0 else EngineParts(grid, rows - 1) + PartNumbers(grid, rows - 1, RowRuns(grid, rows - 1))
  }

  /** The total of all the numbers. */
  function Total(runs: seq<Span>): nat
  {
    if runs == [] then 0 else Total(runs[..|runs| - 1]) + runs[|runs| - 1].value
  }

  lemma {:induction false} PartsOfGrid(grid: seq<string>, k: int, runs: seq<Span>, cols: seq<int>)
    requires forall c :: c in cols <==> Marked(grid, k, c)
    ensures PartsOf(runs, cols) == PartNumbers(grid, k, runs)
  {
    if runs != [] {
      PartsOfGrid(grid, k, runs[..|runs| - 1], cols);
      var last := runs[|runs| - 1];
      assert Touches(last, cols) <==> IsPart(grid, k, last);
    }
  }

  /** With the tables the scan and the clean-up leave behind, the sum of
      lines 83-96 is the total of the part numbers. */
  lemma {:induction false} PartTotalGrid(grid: seq<string>, valid: Table<int>, numbers: Table<Span>, rows: nat)
    requires forall k, c :: c in Get(valid, k) <==> Marked(grid, k, c)
    requires forall k :: Get(numbers, k) == RowRuns(grid, k)
    ensures PartTotal(valid, numbers, rows) == EngineParts(grid, rows)
  {
    if rows > 0 {
      PartTotalGrid(grid, valid, numbers, rows - 1);
      var k := rows - 1;
      var cols := Get(valid, k);
      forall c ensures c in cols <==> Marked(grid, k, c)
      {
      }
      PartsOfGrid(grid, k, RowRuns(grid, k), cols);
      PartTotalStep(grid, valid, numbers, rows);
    }
  }

  lemma PartTotalStep(grid: seq<string>, valid: Table<int>, numbers: Table<Span>, rows: nat)
    requires rows > 0 && Get(numbers, rows - 1) == RowRuns(grid, rows - 1)
    requires PartTotal(valid, numbers, rows - 1) == EngineParts(grid, rows - 1)
    requires PartsOf(RowRuns(grid, rows - 1), Get(valid, rows - 1)) == PartNumbers(grid, rows - 1, RowRuns(grid, rows - 1))
    ensures PartTotal(valid, numbers, rows) == EngineParts(grid, rows)
  {
  }

  /** Each number counts at most once, so the parts never exceed the total
      of the numbers. */
  lemma {:induction false} PartsBound(runs: seq<Span>, cols: seq<int>)
    ensures PartsOf(runs, cols) <= Total(runs)
  {
    if runs != [] {
      PartsBound(runs[..|runs| - 1], cols);
    }
  }

  /** The total of all the numbers in the rows before `rows`, part or not. */
  function SchematicTotal(grid: seq<string>, rows: nat): nat
  {
    if rows == 0 then 0 else SchematicTotal(grid, rows - 1) + Total(RowRuns(grid, rows - 1))
  }

  /** The same over the table of numbers. */
  function NumbersTotal(numbers: Table<Span>, rows: nat): nat
  {
    if rows == 0 then 0 else NumbersTotal(numbers, rows - 1) + Total(Get(numbers, rows - 1))
  }

  /** Row by row, the sum of lines 83-96 never exceeds the total of the
      numbers in its table. */
  lemma {:induction false} PartTotalBound(valid: Table<int>, numbers: Table<Span>, rows: nat)
    ensures PartTotal(valid, numbers, rows) <= NumbersTotal(numbers, rows)
  {
    if rows > 0 {
      PartTotalBound(valid, numbers, rows - 1);
      PartsBound(Get(numbers, rows - 1), Get(valid, rows - 1));
    }
  }

  lemma {:induction false} NumbersTotalGrid(grid: seq<string>, numbers: Table<Span>, rows: nat)
    requires forall k :: Get(numbers, k) == RowRuns(grid, k)
    ensures NumbersTotal(numbers, rows) == SchematicTotal(grid, rows)
  {
    if rows > 0 {
      var k := rows - 1;
      NumbersTotalGrid(grid, numbers, k);
      assert Get(numbers, k) == RowRuns(grid, k);
      NumbersTotalStep(grid, numbers, rows);
    }
  }

  lemma NumbersTotalStep(grid: seq<string>, numbers: Table<Span>, rows: nat)
    requires rows > 0 && Get(numbers, rows - 1) == RowRuns(grid, rows - 1)
    requires NumbersTotal(numbers, rows - 1) == SchematicTotal(grid, rows - 1)
    ensures NumbersTotal(numbers, rows) == SchematicTotal(grid, rows)
  {
  }

  /** Over the whole schematic, the part sum is at most the total of all
      its numbers. */
  lemma EnginePartsBound(grid: seq<string>, valid: Table<int>, numbers: Table<Span>)
    requires forall k, c :: c in Get(valid, k) <==> Marked(grid, k, c)
    requires forall k :: Get(numbers, k) == RowRuns(grid, k)
    ensures EngineParts(grid, |grid|) <= SchematicTotal(grid, |grid|)
  {
    PartTotalGrid(grid, valid, numbers, |grid|);
    PartTotalBound(valid, numbers, |grid|);
    NumbersTotalGrid(grid, numbers, |grid|);
  }

  // ---------------------------------------------------------------------
  // The gear ratios (lines 104-143)

  /** Line 111 */
  function Locations(index: int): seq<int>
  {
    [index - 1, index, index + 1]
  }

  /** Lines 115-117: one of `locations` is in `range(start, stop + 1)`. */
  predicate Overlap(sp: Span, locations: seq<int>)
  {
    exists j :: 0 <= j < |locations| && sp.start <= locations[j] < sp.stop + 1
  }

  /** A number overlaps the three columns around `index` exactly when its
      columns and those three have one in common. */
  lemma OverlapWindow(sp: Span, index: int)
    ensures Overlap(sp, Locations(index)) <==>
      sp.start <= sp.stop && sp.start <= index + 1 && index - 1 <= sp.stop
  {
    var l := Locations(index);
    if sp.start <= sp.stop && sp.start <= index + 1 && index - 1 <= sp.stop {
      if sp.start <= index - 1 {
        assert sp.start <= l[0] < sp.stop + 1;
      } else if sp.start == index {
        assert sp.start <= l[1] < sp.stop + 1;
      } else {
        assert sp.start <= l[2] < sp.stop + 1;
      }
    }
  }

  /** The values of the numbers overlapping `locations`, left to right. */
  function Touching(runs: seq<Span>, locations: seq<int>): seq<nat>
  {
    if runs == [] then []
    else
      var last := runs[|runs| - 1];
      Touching(runs[..|runs| - 1], locations) + (if Overlap(last, locations) then [last.value] else [])
  }

  /** Lines 113-119, 122-129 and 132-138: the values of the numbers of one
      row overlapping `locations` are appended to `parts`, left to right. */
  method Collect(parts: seq<nat>, runs: seq<Span>, locations: seq<int>) returns (parts': seq<nat>)
    ensures parts' == parts + Touching(runs, locations)
  {
    parts' := parts;
    for j := 0 to |runs|
      invariant parts' == parts + Touching(runs[..j], locations)
    {
      assert runs[..j + 1][..j] == runs[..j];
      var sp := runs[j];
      if exists l :: 0 <= l < |locations| && sp.start <= locations[l] < sp.stop + 1 {
        parts' := parts' + [sp.value];
      }
    }
    assert runs[..|runs|] == runs;
  }

  /** Lines 111-138: the parts of the gear in row `lineno`, column `index`:
      its own row first, then the row above, then the row below. */
  function GearParts(numbers: Table<Span>, lineno: int, index: int): seq<nat>
  {
    var l := Locations(index);
    Touching(Get(numbers, lineno), l) + Touching(Get(numbers, lineno - 1), l) + Touching(Get(numbers, lineno + 1), l)
  }

  /** Lines 141-143: a gear with exactly two parts gives their product, any
      other gear nothing. */
  function GearValue(parts: seq<nat>): (v: nat)
    ensures |parts| != 2 ==> v == 0
    ensures |parts| == 2 ==> v == parts[0] * parts[1]
  {
    if |parts| == 2 then parts[0] * parts[1] else 0
  }

  /** The ratios of the gears in columns `cols` of row `lineno`. */
  function RatiosOf(numbers: Table<Span>, lineno: int, cols: seq<int>): nat
  {
    if cols == [] then 0
    else RatiosOf(numbers, lineno, cols[..|cols| - 1]) + GearValue(GearParts(numbers, lineno, cols[|cols| - 1]))
  }

  /** The ratios of the gears in the rows before `rows`. */
  function RatioTotal(gears: Table<int>, numbers: Table<Span>, rows: nat): nat
  {
    if rows == 0 then 0 else RatioTotal(gears, numbers, rows - 1) + RatiosOf(numbers, rows - 1, Get(gears, rows - 1))
  }

  /** Lines 104-143, over the rows `0 .. height - 1`. */
  method GearRatioSum(gears: Table<int>, numbers: Table<Span>, height: nat) returns (ratio: nat)
    ensures ratio == RatioTotal(gears, numbers, height)
  {
    ratio := 0;
    for lineno := 0 to height
      invariant ratio == RatioTotal(gears, numbers, lineno)
    {
      var cols := Get(gears, lineno);
      for j := 0 to |cols|
        invariant ratio == RatioTotal(gears, numbers, lineno) + RatiosOf(numbers, lineno, cols[..j])
      {
        assert cols[..j + 1][..j] == cols[..j];
        var add := RatioOfGear(numbers, lineno, cols[j]);
        ratio := ratio + add;
      }
      assert cols[..|cols|] == cols;
    }
  }

  /** Lines 111-143 on the gear in row `lineno`, column `index`: what it
      adds to `ratio`. */
  method RatioOfGear(numbers: Table<Span>, lineno: int, index: int) returns (add: nat)
    ensures add == GearValue(GearParts(numbers, lineno, index))
  {
    var locations := [index - 1, index, index + 1];
    assert locations == Locations(index);
    var parts := [];
    parts := Collect(parts, Get(numbers, lineno), locations);
    assert parts == Touching(Get(numbers, lineno), locations);
    parts := Collect(parts, Get(numbers, lineno - 1), locations);
    parts := Collect(parts, Get(numbers, lineno + 1), locations);
    add := 0;
    if |parts| == 2 {
      add := parts[0] * parts[1];
    }
  }

  // ---------------------------------------------------------------------
  // The gear ratios on the schematic

  /** The numbers with a digit in column `index - 1`, `index` or
      `index + 1`, left to right. */
  function Around(runs: seq<Span>, index: int): (r: seq<Span>)
    ensures forall sp :: sp in r <==> sp in runs && sp.start <= sp.stop && sp.start <= index + 1 && index - 1 <= sp.stop
  {
    if runs == [] then []
    else
      var last := runs[|runs| - 1];
      assert runs == runs[..|runs| - 1] + [last];
      Around(runs[..|runs| - 1], index) + (if last.start <= last.stop && last.start <= index + 1 && index - 1 <= last.stop then [last] else [])
  }

  function Values(spans: seq<Span>): (vs: seq<nat>)
    ensures |vs| == |spans|
  {
    if spans == [] then [] else Values(spans[..|spans| - 1]) + [spans[|spans| - 1].value]
  }

  lemma {:induction false} ValuesConcat(a: seq<Span>, b: seq<Span>)
    ensures Values(a + b) == Values(a) + Values(b)
    decreases |b|
  {
    if b != [] {
      assert (a + b)[..|a + b| - 1] == a + b[..|b| - 1];
      assert (a + b)[|a + b| - 1] == b[|b| - 1];
      ValuesConcat(a, b[..|b| - 1]);
      var end := [b[|b| - 1].value];
      assert Values(a + b) == Values(a) + Values(b[..|b| - 1]) + end;
      assert Values(b) == Values(b[..|b| - 1]) + end;
    } else {
      assert a + b == a;
    }
  }

  /** The loops of lines 113-138 collect the values of the numbers around
      the gear. */
  lemma {:induction false} TouchingAround(runs: seq<Span>, index: int)
    ensures Touching(runs, Locations(index)) == Values(Around(runs, index))
  {
    if runs != [] {
      var last := runs[|runs| - 1];
      TouchingAround(runs[..|runs| - 1], index);
      OverlapWindow(last, index);
      ValuesConcat(Around(runs[..|runs| - 1], index), if last.start <= last.stop && last.start <= index + 1 && index - 1 <= last.stop then [last] else []);
    }
  }

  /** The numbers around the gear in row `k`, column `i`: those of its own
      row, then of the row above, then of the row below. */
  function GearNumbers(grid: seq<string>, k: int, i: int): seq<Span>
  {
    Around(RowRuns(grid, k), i) + Around(RowRuns(grid, k - 1), i) + Around(RowRuns(grid, k + 1), i)
  }

  /** A gear with exactly two numbers around it has the product of the two
      for ratio; any other gear has none. */
  function GearRatio(grid: seq<string>, k: int, i: int): nat
  {
    PairProduct(GearNumbers(grid, k, i))
  }

  /** The product of the values of a pair of numbers; nothing for any other
      count of numbers. */
  function PairProduct(spans: seq<Span>): nat
  {
    if |spans| == 2 then spans[0].value * spans[1].value else 0
  }

  /** A number next to a gear touches that gear, so it is a part number:
      the numbers a gear ratio multiplies are among those the part sum
      adds. */
  lemma GearNumbersAreParts(grid: seq<string>, k: int, i: int, r: int, sp: Span)
    requires 0 <= k < |grid| && 0 <= i < |grid[k]| && grid[k][i] == '*'
    requires k - 1 <= r <= k + 1 && sp in Around(RowRuns(grid, r), i)
    ensures IsPart(grid, r, sp)
  {
    AroundIsRun(grid, r, i, sp);
    var c := if i < sp.start then sp.start else if sp.stop < i then sp.stop else i;
    RunDigit(grid[r], sp, c);
    assert Near(k, i, r, c);
    assert 0 <= k < |grid| && 0 <= i < |grid[k]| && IsSymbol(grid[k][i]) && Near(k, i, r, c);
    MarkedNear(grid, r, c);
  }

  /** A number around column `i` of a row is one of the row's numbers. */
  lemma AroundIsRun(grid: seq<string>, r: int, i: int, sp: Span)
    requires sp in Around(RowRuns(grid, r), i)
    ensures 0 <= r < |grid| && IsRun(grid[r], sp)
    ensures sp.start <= i + 1 && i - 1 <= sp.stop
  {
    var runs := Runs(grid[r]);
    RunsUpToAreRuns(grid[r], |grid[r]|);
    var j :| 0 <= j < |runs| && runs[j] == sp;
  }

  /** Every column of a number holds a digit. */
  lemma RunDigit(line: string, sp: Span, c: int)
    requires IsRun(line, sp) && sp.start <= c <= sp.stop
    ensures IsDigit(line[c])
  {
    assert line[c] == line[sp.start..sp.stop + 1][c - sp.start];
  }

  /** The ratios of the gears in columns `cols` of row `k`. */
  function GridRatios(grid: seq<string>, k: int, cols: seq<int>): nat
  {
    if cols == [] then 0 else GridRatios(grid, k, cols[..|cols| - 1]) + GearRatio(grid, k, cols[|cols| - 1])
  }

  /** The ratios of all the gears in the rows before `rows`. */
  function GearTotal(grid: seq<string>, rows: nat): nat
  {
    if rows == 0 then 0 else GearTotal(grid, rows - 1) + GridRatios(grid, rows - 1, RowGears(grid, rows - 1))
  }

  /** The numbers the tables hold for the rows around row `k` are those of
      the schematic. */
  predicate RowsAgree(grid: seq<string>, numbers: Table<Span>, k: int)
  {
    Get(numbers, k) == RowRuns(grid, k) && Get(numbers, k - 1) == RowRuns(grid, k - 1) &&
    Get(numbers, k + 1) == RowRuns(grid, k + 1)
  }

  lemma GearPartsNumbers(grid: seq<string>, numbers: Table<Span>, k: int, i: int)
    requires RowsAgree(grid, numbers, k)
    ensures GearValue(GearParts(numbers, k, i)) == GearRatio(grid, k, i)
  {
    GearPartsValues(grid, numbers, k, i);
    PairValues(GearNumbers(grid, k, i));
  }

  /** The loops of lines 113-138 collect the values of the numbers around
      the gear, own row first. */
  lemma GearPartsValues(grid: seq<string>, numbers: Table<Span>, k: int, i: int)
    requires RowsAgree(grid, numbers, k)
    ensures GearParts(numbers, k, i) == Values(GearNumbers(grid, k, i))
  {
    var a, b, c := Around(RowRuns(grid, k), i), Around(RowRuns(grid, k - 1), i), Around(RowRuns(grid, k + 1), i);
    TouchingAround(RowRuns(grid, k), i);
    TouchingAround(RowRuns(grid, k - 1), i);
    TouchingAround(RowRuns(grid, k + 1), i);
    ValuesConcat(a, b);
    ValuesConcat(a + b, c);
  }

  lemma PairValues(spans: seq<Span>)
    ensures GearValue(Values(spans)) == PairProduct(spans)
  {
    if |spans| == 2 {
      assert spans == spans[..1] + [spans[1]] && spans[..1] == [] + [spans[0]];
      assert Values(spans) == [spans[0].value, spans[1].value];
    }
  }

  lemma {:induction false} RatiosOfGrid(grid: seq<string>, numbers: Table<Span>, k: int, cols: seq<int>)
    requires RowsAgree(grid, numbers, k)
    ensures RatiosOf(numbers, k, cols) == GridRatios(grid, k, cols)
  {
    if cols != [] {
      RatiosOfGrid(grid, numbers, k, cols[..|cols| - 1]);
      GearPartsNumbers(grid, numbers, k, cols[|cols| - 1]);
    }
  }

  /** With the tables the scan leaves behind, the sum of lines 104-143 is
      the total of the gear ratios of the schematic. */
  lemma RatioTotalGrid(grid: seq<string>, gears: Table<int>, numbers: Table<Span>, rows: nat)
    requires forall k :: Get(gears, k) == RowGears(grid, k)
    requires forall k :: Get(numbers, k) == RowRuns(grid, k)
    ensures RatioTotal(gears, numbers, rows) == GearTotal(grid, rows)
  {
    TablesMatchAll(grid, gears, numbers, rows);
    RatioTotalRows(grid, gears, numbers, rows);
  }

  /** The tables hold the gears of the rows before `rows`, and the numbers
      of those rows and of the rows next to them. */
  predicate TablesMatch(grid: seq<string>, gears: Table<int>, numbers: Table<Span>, rows: nat)
  {
    rows == 0 ||
    (TablesMatch(grid, gears, numbers, rows - 1) &&
     Get(gears, rows - 1) == RowGears(grid, rows - 1) && RowsAgree(grid, numbers, rows - 1))
  }

  lemma {:induction false} TablesMatchAll(grid: seq<string>, gears: Table<int>, numbers: Table<Span>, rows: nat)
    requires forall k :: Get(gears, k) == RowGears(grid, k)
    requires forall k :: Get(numbers, k) == RowRuns(grid, k)
    ensures TablesMatch(grid, gears, numbers, rows)
  {
    if rows > 0 {
      TablesMatchAll(grid, gears, numbers, rows - 1);
    }
  }

  /** Row by row, the two totals add the same amounts. */
  lemma {:induction false} RatioTotalRows(grid: seq<string>, gears: Table<int>, numbers: Table<Span>, rows: nat)
    requires TablesMatch(grid, gears, numbers, rows)
    ensures RatioTotal(gears, numbers, rows) == GearTotal(grid, rows)
  {
    if rows > 0 {
      RatioTotalRows(grid, gears, numbers, rows - 1);
      RatiosOfGrid(grid, numbers, rows - 1, RowGears(grid, rows - 1));
      RatioTotalStep(grid, gears, numbers, rows);
    }
  }

  lemma RatioTotalStep(grid: seq<string>, gears: Table<int>, numbers: Table<Span>, rows: nat)
    requires rows > 0 && Get(gears, rows - 1) == RowGears(grid, rows - 1)
    requires RatioTotal(gears, numbers, rows - 1) == GearTotal(grid, rows - 1)
    requires RatiosOf(numbers, rows - 1, RowGears(grid, rows - 1)) == GridRatios(grid, rows - 1, RowGears(grid, rows - 1))
    ensures RatioTotal(gears, numbers, rows) == GearTotal(grid, rows)
  {
  }

  // ---------------------------------------------------------------------
  // The solver (lines 7-148)

  /** The result of `run`: the sum of the gear ratios of the padded
      schematic, or the `IndexError` of an input without lines. */
  function GearOutcome(input: string): Outcome<nat>
  {
    if SplitLines(input) == [] then Raise(IndexError)
    else Ok(GearTotal(Grid(input), |Grid(input)|))
  }

  method Run(input: string) returns (r: Outcome<nat>)
    ensures r == GearOutcome(input)
  {
    if SplitLines(input) == [] {
      return Raise(IndexError);
    }
    var padded := Padded(input).value;
    var grid := SplitLines(padded);
    GridBordered(input);
    var valid, specials, gears, numbers := Scan(grid);
    valid := Cleanup(valid);
    var sum := PartSum(valid, numbers, |grid|);
    PartTotalGrid(grid, valid, numbers, |grid|);
    assert sum == EngineParts(grid, |grid|);
    var ratio := GearRatioSum(gears, numbers, |grid|);
    RatioTotalGrid(grid, gears, numbers, |grid|);
    r := Ok(ratio);
  }
}
