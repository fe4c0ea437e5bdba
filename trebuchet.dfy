/** `adventures/trebuchet.py`: the earlier form of the day-one solver, which
    reads its puzzle text from a file.  The model takes the file's contents;
    the body is the one of `DayOne.Run`, so both return the same outcome. */
module Trebuchet {
  import opened Prelude
  import opened Calibration

  /** `calibrate(input)` on the contents of the file `input`. */
  method Calibrate(contents: string) returns (r: Outcome<nat>)
    ensures r == CalibrationSum(Words, contents)
  {
    WordsShape();
    var numbers := Words;
    var combinations := BuildCombinations(numbers);
    r := SumCalibrations(numbers, combinations, contents);
  }
}
