/** The engine schematic of Gear Ratios (`adventures/d3y2023.py`) as a grid:
    the padding the solver puts around it, and what lies where in it. */
module EngineGrid {
  import opened Prelude
  import opened Text

  // ---------------------------------------------------------------------
  // Padding (lines 33-43)

  /** `"." * n` */
  function Dots(n: nat): (s: string)
    ensures |s| == n && forall i :: 0 <= i < n ==> s[i] == '.'
  {
    if n == 0 then "" else Dots(n - 1) + "."
  }

  /** `"..." + line + "..."` */
  function Framed(line: string): string
  {
    "..." + line + "..."
  }

  function FramedAll(lines: seq<string>): (r: seq<string>)
    ensures |r| == |lines|
  {
    if lines == [] then [] else [Framed(lines[0])] + FramedAll(lines[1..])
  }

  /** Lines 34-40: a row of dots as wide as the first line above and below. */
  function Extended(input: string, width: nat): string
  {
    Dots(width) + "\n" + input + "\n" + Dots(width)
  }

  /** Lines 34-43: the padded schematic, or the `IndexError` of taking the
      first line of an input without lines. */
  function Padded(input: string): Outcome<string>
  {
    var lines := SplitLines(input);
    if lines == [] then Raise(IndexError)
    else Ok(Join(FramedAll(SplitLines(Extended(input, |lines[0]|))), '\n'))
  }

  lemma {:induction false} FramedAllAt(lines: seq<string>, k: nat)
    requires k < |lines|
    ensures FramedAll(lines)[k] == Framed(lines[k])
  {
    if k > 0 {
      FramedAllAt(lines[1..], k - 1);
    }
  }

  /** The lines of the extended input: the dots, the pieces of the input
      between line breaks, and the dots again unless they are empty (then
      `splitlines` drops them as a final empty line). */
  lemma ExtendedLines(input: string, width: nat)
    ensures SplitLines(Extended(input, width)) ==
      [Dots(width)] + Split(input, '\n') + (if width > 0 then [Dots(width)] else [])
  {
    var d := Dots(width);
    assert '\n' !in d;
    assert Extended(input, width) == d + ['\n'] + (input + ['\n'] + d);
    SplitConcat(d, input + ['\n'] + d, '\n');
    SplitConcat(input, d, '\n');
    SplitAbsent(d, '\n');
    var parts := [d] + Split(input, '\n') + [d];
    assert Split(Extended(input, width), '\n') == parts;
    assert parts[..|parts| - 1] == [d] + Split(input, '\n');
  }

  /** The padded schematic: one row of dots as wide as the first line on top,
      the input's lines, one more row of dots below when that width is not
      zero, every row framed by three dots on each side. */
  lemma PaddedRows(input: string)
    requires SplitLines(input) != []
    ensures Padded(input).Ok?
    ensures SplitLines(Padded(input).value) ==
      FramedAll(Rows(input))
  {
    var w := |SplitLines(input)[0]|;
    ExtendedLines(input, w);
    var rows := Rows(input);
    assert rows == SplitLines(Extended(input, w));
    forall k | 0 <= k < |FramedAll(rows)|
      ensures '\n' !in FramedAll(rows)[k]
    {
      FramedAllAt(rows, k);
    }
    if rows != [] {
      FramedAllAt(rows, |rows| - 1);
    }
    SplitLinesJoin(FramedAll(rows));
  }

  /** The rows before framing. */
  function Rows(input: string): seq<string>
    requires SplitLines(input) != []
  {
    var w := |SplitLines(input)[0]|;
    [Dots(w)] + Split(input, '\n') + (if w > 0 then [Dots(w)] else [])
  }

  /** The schematic the scan walks through. */
  function Grid(input: string): seq<string>
    requires SplitLines(input) != []
  {
    SplitLines(Padded(input).value)
  }

  /** A row begins and ends with a character that is not a digit. */
  predicate Bordered(line: string)
  {
    |line| >= 2 && !IsDigit(line[0]) && !IsDigit(line[|line| - 1])
  }

  lemma {:induction false} GridBordered(input: string)
    requires SplitLines(input) != []
    ensures |Grid(input)| >= 1
    ensures forall k :: 0 <= k < |Grid(input)| ==> Bordered(Grid(input)[k])
    ensures Grid(input)[0] == Framed(Dots(|SplitLines(input)[0]|))
  {
    PaddedRows(input);
    forall k | 0 <= k < |Grid(input)| ensures Bordered(Grid(input)[k])
    {
      FramedAllAt(Rows(input), k);
    }
    FramedAllAt(Rows(input), 0);
  }

  // ---------------------------------------------------------------------
  // What lies where

  /** Line 48: a special character. */
  predicate IsSymbol(c: char)
  {
    !IsDigit(c) && c != '.'
  }

  /** Line 56: a gear. */
  predicate IsGear(c: char)
  {
    !IsDigit(c) && c == '*'
  }

  /** The columns before `n` holding a special character, left to right. */
  function SymbolCols(line: string, n: nat): seq<int>
    requires n <= |line|
  {
    if n == 0 then [] else SymbolCols(line, n - 1) + (if IsSymbol(line[n - 1]) then [n - 1] else [])
  }

  /** The columns before `n` holding a gear, left to right. */
  function GearCols(line: string, n: nat): seq<int>
    requires n <= |line|
  {
    if n == 0 then [] else GearCols(line, n - 1) + (if IsGear(line[n - 1]) then [n - 1] else [])
  }

  /** The recorded columns are exactly those holding a special character,
      and they increase. */
  lemma {:induction false} SymbolColsAre(line: string, n: nat)
    requires n <= |line|
    ensures forall c :: c in SymbolCols(line, n) <==> 0 <= c < n && IsSymbol(line[c])
    ensures forall a, b :: 0 <= a < b < |SymbolCols(line, n)| ==> SymbolCols(line, n)[a] < SymbolCols(line, n)[b]
  {
    if n > 0 {
      SymbolColsAre(line, n - 1);
      var before := SymbolCols(line, n - 1);
      assert forall a :: 0 <= a < |before| ==> before[a] in before;
    }
  }

  lemma {:induction false} GearColsAre(line: string, n: nat)
    requires n <= |line|
    ensures forall c :: c in GearCols(line, n) <==> 0 <= c < n && line[c] == '*'
    ensures forall a, b :: 0 <= a < b < |GearCols(line, n)| ==> GearCols(line, n)[a] < GearCols(line, n)[b]
  {
    if n > 0 {
      GearColsAre(line, n - 1);
      var before := GearCols(line, n - 1);
      assert forall a :: 0 <= a < |before| ==> before[a] in before;
    }
  }

  /** Every gear is also a special character. */
  lemma GearsAreSymbols(line: string, n: nat)
    requires n <= |line|
    ensures forall c :: c in GearCols(line, n) ==> c in SymbolCols(line, n)
  {
    GearColsAre(line, n);
    SymbolColsAre(line, n);
  }

  /** A number in the schematic: its value and its first and last column. */
  datatype Span = Span(value: nat, start: int, stop: int)

  /** Where the run of digits through column `k` begins. */
  function RunStart(line: string, k: nat): (s: nat)
    requires k < |line| && IsDigit(line[k])
    ensures s <= k && IsDigits(line[s..k + 1]) && (s == 0 || !IsDigit(line[s - 1]))
  {
    if k > 0 && IsDigit(line[k - 1]) then
      var s := RunStart(line, k - 1);
      assert line[s..k + 1] == line[s..k] + [line[k]];
      s
    else k
  }

  /** Column `k` holds the last digit of a run. */
  predicate EndsRun(line: string, k: nat)
    requires k < |line|
  {
    IsDigit(line[k]) && (k + 1 == |line| || !IsDigit(line[k + 1]))
  }

  /** The number whose last digit is in column `k`. */
  function RunAt(line: string, k: nat): Span
    requires k < |line| && IsDigit(line[k])
  {
    Span(DecimalValue(line[RunStart(line, k)..k + 1]), RunStart(line, k), k)
  }

  /** The numbers ending before column `n`, left to right. */
  function RunsUpTo(line: string, n: nat): seq<Span>
    requires n <= |line|
  {
    if n == 0 then []
    else RunsUpTo(line, n - 1) + (if EndsRun(line, n - 1) then [RunAt(line, n - 1)] else [])
  }

  function Runs(line: string): seq<Span>
  {
    RunsUpTo(line, |line|)
  }

  /** `sp` is a maximal run of digits of `line` with its decimal value. */
  predicate IsRun(line: string, sp: Span)
  {
    0 <= sp.start <= sp.stop < |line| &&
    IsDigits(line[sp.start..sp.stop + 1]) &&
    (sp.start == 0 || !IsDigit(line[sp.start - 1])) &&
    (sp.stop + 1 == |line| || !IsDigit(line[sp.stop + 1])) &&
    sp.value == DecimalValue(line[sp.start..sp.stop + 1])
  }

  /** Every recorded number is a maximal run, and the runs come left to
      right without touching. */
  lemma RunsUpToAreRuns(line: string, n: nat)
    requires n <= |line|
    ensures forall j :: 0 <= j < |RunsUpTo(line, n)| ==> IsRun(line, RunsUpTo(line, n)[j]) && RunsUpTo(line, n)[j].stop < n
    ensures forall a, b :: 0 <= a < b < |RunsUpTo(line, n)| ==> RunsUpTo(line, n)[a].stop + 1 < RunsUpTo(line, n)[b].start
  {
    RunsUpToRuns(line, n);
    RunsUpToApart(line, n);
  }

  lemma {:induction false} RunsUpToRuns(line: string, n: nat)
    requires n <= |line|
    ensures forall j :: 0 <= j < |RunsUpTo(line, n)| ==> IsRun(line, RunsUpTo(line, n)[j]) && RunsUpTo(line, n)[j].stop < n
  {
    if n > 0 {
      RunsUpToRuns(line, n - 1);
      var runs := RunsUpTo(line, n - 1);
      assert forall j :: 0 <= j < |runs| ==> RunsUpTo(line, n)[j] == runs[j];
    }
  }

  lemma {:induction false} RunsUpToApart(line: string, n: nat)
    requires n <= |line|
    ensures forall a, b :: 0 <= a < b < |RunsUpTo(line, n)| ==> RunsUpTo(line, n)[a].stop + 1 < RunsUpTo(line, n)[b].start
  {
    if n > 0 {
      RunsUpToApart(line, n - 1);
      if EndsRun(line, n - 1) {
        var runs := RunsUpTo(line, n - 1);
        var last := RunAt(line, n - 1);
        RunsUpToRuns(line, n - 1);
        RunsUpToRuns(line, n);
        assert RunsUpTo(line, n) == runs + [last];
        forall a | 0 <= a < |runs| ensures runs[a].stop + 1 < last.start
        {
          assert RunsUpTo(line, n)[a] == runs[a] && RunsUpTo(line, n)[|runs|] == last;
          RunsApart(line, runs[a], last);
        }
      }
    }
  }

  lemma RunsApart(line: string, a: Span, b: Span)
    requires IsRun(line, a) && IsRun(line, b) && a.stop < b.stop
    ensures a.stop + 1 < b.start
  {
    assert !IsDigit(line[a.stop + 1]);
    forall t | b.start <= t <= b.stop ensures IsDigit(line[t])
    {
      assert line[t] == line[b.start..b.stop + 1][t - b.start];
    }
  }

  /** Every maximal run is recorded once its last column was passed. */
  lemma {:induction false} RunsUpToComplete(line: string, n: nat, sp: Span)
    requires n <= |line| && IsRun(line, sp) && sp.stop < n
    ensures sp in RunsUpTo(line, n)
  {
    if sp.stop < n - 1 {
      RunsUpToComplete(line, n - 1, sp);
    } else {
      assert line[sp.stop] == line[sp.start..sp.stop + 1][sp.stop - sp.start];
      RunStartOf(line, sp);
    }
  }

  /** A run of digits whose left end is maximal is where the run through
      its last column begins. */
  lemma {:induction false} RunStartOf(line: string, sp: Span)
    requires 0 <= sp.start <= sp.stop < |line| && IsDigits(line[sp.start..sp.stop + 1])
    requires sp.start == 0 || !IsDigit(line[sp.start - 1])
    ensures IsDigit(line[sp.stop]) && RunStart(line, sp.stop) == sp.start
    decreases sp.stop - sp.start
  {
    assert line[sp.stop] == line[sp.start..sp.stop + 1][sp.stop - sp.start];
    if sp.start < sp.stop {
      assert line[sp.start..sp.stop] == line[sp.start..sp.stop + 1][..sp.stop - sp.start];
      RunStartOf(line, Span(0, sp.start, sp.stop - 1));
    }
  }
}
