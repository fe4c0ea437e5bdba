/** `adventures/d1y2023.py`: the day-one solver on the puzzle text. */
module DayOne {
  import opened Prelude
  import opened Calibration

  /** `run(input)`: the sum of the calibrations of the lines of `input`, or
      the IndexError of the first line that keeps no digit. */
  method Run(input: string) returns (r: Outcome<nat>)
    ensures r == CalibrationSum(Words, input)
  {
    WordsShape();
    var numbers := Words;
    var combinations := BuildCombinations(numbers);
    r := SumCalibrations(numbers, combinations, input);
  }
}
