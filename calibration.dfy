/** Trebuchet calibration: what `adventures/d1y2023.py` and
    `adventures/trebuchet.py` compute.

    Both build the same two tables (number words, and pairs of number words
    that share a letter), rewrite every line with them by successive
    `str.replace` passes, keep the digits and read the first and last digit
    as a two-digit number.  This module holds the tables, the rewriting and
    the specification of the calibration sum, together with the loops that
    compute them (`BuildCombinations`, `Rewrite`, `SumCalibrations`);
    `DayOne.Run` and `Trebuchet.Calibrate` only call these.
 */
module Calibration {
  import opened Prelude
  import opened Text

  type Table = seq<(string, string)>

  /** The `numbers` dictionary, in insertion order. */
  const Words: Table := [
    ("one", "1"), ("two", "2"), ("three", "3"), ("four", "4"), ("five", "5"),
    ("six", "6"), ("seven", "7"), ("eight", "8"), ("nine", "9"), ("zero", "0")
  ]

  /** Every number word is non-empty and stands for one decimal digit. */
  lemma WordsShape()
    ensures |Words| == 10
    ensures forall k :: 0 <= k < |Words| ==> Words[k].0 != [] && |Words[k].1| == 1 && IsDigit(Words[k].1[0])
  {
    forall k | 0 <= k < |Words|
      ensures Words[k].0 != [] && |Words[k].1| == 1 && IsDigit(Words[k].1[0])
    {
      if k == 0 {} else if k == 1 {} else if k == 2 {} else if k == 3 {} else if k == 4 {}
      else if k == 5 {} else if k == 6 {} else if k == 7 {} else if k == 8 {} else {}
    }
  }

  predicate NonEmptyKeys(table: Table)
  {
    forall k :: 0 <= k < |table| ==> table[k].0 != []
  }

  predicate DistinctKeys(table: Table)
  {
    forall k, l :: 0 <= k < l < |table| ==> table[k].0 != table[l].0
  }

  predicate HasKey(table: Table, key: string)
  {
    exists k :: 0 <= k < |table| && table[k].0 == key
  }

  /** Dictionary assignment `table[key] = value`: an existing key keeps its
      place and takes the new value, a new key goes at the end. */
  function Assign(table: Table, key: string, value: string): Table
  {
    if table == [] then [(key, value)]
    else if table[0].0 == key then [(key, value)] + table[1..]
    else [table[0]] + Assign(table[1..], key, value)
  }

  /** After `table[key] = value` the table holds `(key, value)`, keeps every
      other key, adds no other entry and still has no key twice. */
  lemma AssignShape(table: Table, key: string, value: string)
    ensures forall e :: e in Assign(table, key, value) ==> e == (key, value) || e in table
    ensures (key, value) in Assign(table, key, value)
    ensures forall k :: HasKey(table, k) ==> HasKey(Assign(table, key, value), k)
    ensures DistinctKeys(table) ==> DistinctKeys(Assign(table, key, value))
    ensures forall k :: HasKey(Assign(table, key, value), k) ==> k == key || HasKey(table, k)
  {
    AssignEntries(table, key, value);
    AssignKeys(table, key, value);
    AssignDistinct(table, key, value);
  }

  lemma {:induction false} AssignEntries(table: Table, key: string, value: string)
    ensures forall e :: e in Assign(table, key, value) ==> e == (key, value) || e in table
    ensures (key, value) in Assign(table, key, value)
  {
    if table != [] && table[0].0 != key {
      var rest := table[1..];
      AssignEntries(rest, key, value);
      assert Assign(table, key, value) == [table[0]] + Assign(rest, key, value);
    }
  }

  lemma {:induction false} AssignKeys(table: Table, key: string, value: string)
    ensures forall k :: HasKey(table, k) ==> HasKey(Assign(table, key, value), k)
    ensures forall k :: HasKey(Assign(table, key, value), k) ==> k == key || HasKey(table, k)
  {
    var t := Assign(table, key, value);
    if table == [] {
    } else if table[0].0 == key {
      assert forall k :: 1 <= k < |t| ==> t[k] == table[k];
      forall k | HasKey(table, k) ensures HasKey(t, k)
      {
        var i :| 0 <= i < |table| && table[i].0 == k;
        assert t[i].0 == k;
      }
    } else {
      var rest := table[1..];
      AssignKeys(rest, key, value);
      var a := Assign(rest, key, value);
      assert t == [table[0]] + a;
      forall k | HasKey(table, k) ensures HasKey(t, k)
      {
        var i :| 0 <= i < |table| && table[i].0 == k;
        if i > 0 {
          assert rest[i - 1].0 == k;
          assert HasKey(rest, k);
          var m :| 0 <= m < |a| && a[m].0 == k;
          assert t[m + 1].0 == k;
        } else {
          assert t[0].0 == k;
        }
      }
      forall k | HasKey(t, k) ensures k == key || HasKey(table, k)
      {
        var i :| 0 <= i < |t| && t[i].0 == k;
        if i > 0 {
          assert a[i - 1].0 == k;
          if k != key {
            assert HasKey(rest, k);
            var m :| 0 <= m < |rest| && rest[m].0 == k;
            assert table[m + 1].0 == k;
          }
        } else {
          assert table[0].0 == k;
        }
      }
    }
  }

  lemma {:induction false} AssignDistinct(table: Table, key: string, value: string)
    ensures DistinctKeys(table) ==> DistinctKeys(Assign(table, key, value))
  {
    var t := Assign(table, key, value);
    if DistinctKeys(table) && table != [] {
      if table[0].0 == key {
        assert forall k :: 1 <= k < |t| ==> t[k] == table[k];
      } else {
        var rest := table[1..];
        assert DistinctKeys(rest);
        AssignDistinct(rest, key, value);
        AssignKeys(rest, key, value);
        var a := Assign(rest, key, value);
        assert t == [table[0]] + a;
        forall k, l | 0 <= k < l < |t| ensures t[k].0 != t[l].0
        {
          if k == 0 {
            var m := l - 1;
            assert t[l] == a[m];
            assert HasKey(a, a[m].0);
            if HasKey(rest, a[m].0) {
              var x :| 0 <= x < |rest| && rest[x].0 == a[m].0;
              assert table[x + 1].0 == a[m].0;
            }
          } else {
            assert t[k] == a[k - 1] && t[l] == a[l - 1];
          }
        }
      }
    }
  }

  // ---------------------------------------------------------------------
  // The combinations table

  /** Word `front` can run into word `back`: its last letter is `back`'s first. */
  predicate Joinable(front: string, back: string)
  {
    front != [] && back != [] && front[|front| - 1] == back[0]
  }

  /** The key `front[:-1] + back` of a joinable pair. */
  function Overlapped(front: string, back: string): string
    requires front != []
  {
    front[..|front| - 1] + back
  }

  /** Whether `entry` is the combination of some joinable pair of entries of
      `numbers`: their overlapped spelling and their two digits. */
  ghost predicate IsCombination(numbers: Table, entry: (string, string))
  {
    exists i, j :: 0 <= i < |numbers| && 0 <= j < |numbers| &&
      Joinable(numbers[i].0, numbers[j].0) &&
      entry == (Overlapped(numbers[i].0, numbers[j].0), numbers[i].1 + numbers[j].1)
  }

  /** One step of the nested loop, for front `numbers[i]` and back `numbers[j]`. */
  function Combine(numbers: Table, table: Table, i: nat, j: nat): Table
    requires i < |numbers| && j < |numbers|
  {
    var front, back := numbers[i], numbers[j];
    if Joinable(front.0, back.0)
    then Assign(table, Overlapped(front.0, back.0), front.1 + back.1)
    else table
  }

  /** The table once every front before `i`, and front `i` with every back
      before `j`, has been through the nested loop. */
  function CombinationsUpTo(numbers: Table, i: nat, j: nat): Table
    requires i <= |numbers| && j <= |numbers| && (i == |numbers| ==> j == 0)
    decreases i, j
  {
    if j > 0 then Combine(numbers, CombinationsUpTo(numbers, i, j - 1), i, j - 1)
    else if i > 0 then CombinationsUpTo(numbers, i - 1, |numbers|)
    else []
  }

  /** The `combinations` dictionary built from `numbers`. */
  function CombinationsOf(numbers: Table): Table
  {
    CombinationsUpTo(numbers, |numbers|, 0)
  }

  /** Lines 25-33 of both solvers: the nested loop that fills `combinations`. */
  method BuildCombinations(numbers: Table) returns (combinations: Table)
    requires NonEmptyKeys(numbers)
    ensures combinations == CombinationsOf(numbers)
  {
    combinations := [];
    for i := 0 to |numbers|
      invariant combinations == CombinationsUpTo(numbers, i, 0)
    {
      for j := 0 to |numbers|
        invariant combinations == CombinationsUpTo(numbers, i, j)
      {
        var front, back := numbers[i], numbers[j];
        if front.0[|front.0| - 1] == back.0[0] {
          combinations := Assign(combinations, front.0[..|front.0| - 1] + back.0, front.1 + back.1);
        }
      }
    }
  }

  /** Pair (i', j') comes before pair (i, j) in the nested loop. */
  predicate Before(i': int, j': int, i: int, j: int)
  {
    i' < i || (i' == i && j' < j)
  }

  /** If front `i` runs into back `j`, their overlapped spelling is a key of `table`. */
  predicate Covered(numbers: Table, table: Table, i: nat, j: nat)
    requires i < |numbers| && j < |numbers|
  {
    Joinable(numbers[i].0, numbers[j].0) ==> HasKey(table, Overlapped(numbers[i].0, numbers[j].0))
  }

  /** Every entry of the table is the combination of a joinable pair, every
      joinable pair seen so far has its key in the table, and no key is
      there twice. */
  lemma {:induction false} CombinationsUpToShape(numbers: Table, i: nat, j: nat)
    requires i <= |numbers| && j <= |numbers| && (i == |numbers| ==> j == 0)
    ensures forall e :: e in CombinationsUpTo(numbers, i, j) ==> IsCombination(numbers, e)
    ensures forall i', j' :: 0 <= i' < |numbers| && 0 <= j' < |numbers| && Before(i', j', i, j) ==>
      Covered(numbers, CombinationsUpTo(numbers, i, j), i', j')
    ensures DistinctKeys(CombinationsUpTo(numbers, i, j))
    decreases i, j
  {
    if j > 0 {
      CombinationsUpToShape(numbers, i, j - 1);
      var prev := CombinationsUpTo(numbers, i, j - 1);
      if Joinable(numbers[i].0, numbers[j - 1].0) {
        var e := (Overlapped(numbers[i].0, numbers[j - 1].0), numbers[i].1 + numbers[j - 1].1);
        AssignShape(prev, e.0, e.1);
        assert IsCombination(numbers, e);
        var t := CombinationsUpTo(numbers, i, j);
        assert HasKey(t, e.0) by {
          var k :| 0 <= k < |t| && t[k] == e;
        }
        forall i', j' | 0 <= i' < |numbers| && 0 <= j' < |numbers| && Before(i', j', i, j)
          ensures Covered(numbers, t, i', j')
        {
          if Before(i', j', i, j - 1) {
            assert Covered(numbers, prev, i', j');
          }
        }
      }
    } else if i > 0 {
      CombinationsUpToShape(numbers, i - 1, |numbers|);
    }
  }

  /** A combination key exists exactly for the pairs of number words whose
      last and first letters agree, its value is their two digits, and no
      key is there twice. */
  lemma CombinationsShape(numbers: Table)
    ensures forall e :: e in CombinationsOf(numbers) ==> IsCombination(numbers, e)
    ensures forall i, j :: 0 <= i < |numbers| && 0 <= j < |numbers| ==> Covered(numbers, CombinationsOf(numbers), i, j)
    ensures DistinctKeys(CombinationsOf(numbers))
  {
    CombinationsUpToShape(numbers, |numbers|, 0);
  }

  /** The table the solvers build: nine words that run into another one. */
  lemma WordsCombinations()
    ensures CombinationsOf(Words) == [
      ("oneight", "18"), ("twone", "21"), ("threeight", "38"), ("fiveight", "58"), ("sevenine", "79"),
      ("eightwo", "82"), ("eighthree", "83"), ("nineight", "98"), ("zerone", "01")
    ]
  {
    WordsRow0();
    WordsRow1();
    WordsRow2();
    WordsRow3();
    WordsRow4();
    WordsRow5();
    WordsRow6();
    WordsRow7();
    WordsRow8();
    WordsRow9();
  }

  lemma WordsRow0()
    requires CombinationsUpTo(Words, 0, 0) == []
    ensures CombinationsUpTo(Words, 1, 0) == [("oneight", "18")]
  {
    assert Words[0] == ("one", "1");
    assert CombinationsUpTo(Words, 0, 1) == CombinationsUpTo(Words, 0, 0);
    assert CombinationsUpTo(Words, 0, 2) == CombinationsUpTo(Words, 0, 1);
    assert CombinationsUpTo(Words, 0, 3) == CombinationsUpTo(Words, 0, 2);
    assert CombinationsUpTo(Words, 0, 4) == CombinationsUpTo(Words, 0, 3);
    assert CombinationsUpTo(Words, 0, 5) == CombinationsUpTo(Words, 0, 4);
    assert CombinationsUpTo(Words, 0, 6) == CombinationsUpTo(Words, 0, 5);
    assert CombinationsUpTo(Words, 0, 7) == CombinationsUpTo(Words, 0, 6);
    assert CombinationsUpTo(Words, 0, 7) == [];
    assert Words[7] == ("eight", "8");
    assert Overlapped("one", "eight") == "oneight";
    assert "1" + "8" == "18";
    CombineNew(Words, [], 0, 7);
    assert CombinationsUpTo(Words, 0, 9) == CombinationsUpTo(Words, 0, 8);
    assert CombinationsUpTo(Words, 0, 10) == CombinationsUpTo(Words, 0, 9);
  }

  lemma WordsRow1()
    requires CombinationsUpTo(Words, 1, 0) == [("oneight", "18")]
    ensures CombinationsUpTo(Words, 2, 0) == [("oneight", "18"), ("twone", "21")]
  {
    assert Words[1] == ("two", "2");
    assert CombinationsUpTo(Words, 1, 0) == [("oneight", "18")];
    assert Words[0] == ("one", "1");
    assert Overlapped("two", "one") == "twone";
    assert "2" + "1" == "21";
    CombineNew(Words, [("oneight", "18")], 1, 0);
    assert CombinationsUpTo(Words, 1, 2) == CombinationsUpTo(Words, 1, 1);
    assert CombinationsUpTo(Words, 1, 3) == CombinationsUpTo(Words, 1, 2);
    assert CombinationsUpTo(Words, 1, 4) == CombinationsUpTo(Words, 1, 3);
    assert CombinationsUpTo(Words, 1, 5) == CombinationsUpTo(Words, 1, 4);
    assert CombinationsUpTo(Words, 1, 6) == CombinationsUpTo(Words, 1, 5);
    assert CombinationsUpTo(Words, 1, 7) == CombinationsUpTo(Words, 1, 6);
    assert CombinationsUpTo(Words, 1, 8) == CombinationsUpTo(Words, 1, 7);
    assert CombinationsUpTo(Words, 1, 9) == CombinationsUpTo(Words, 1, 8);
    assert CombinationsUpTo(Words, 1, 10) == CombinationsUpTo(Words, 1, 9);
  }

  lemma WordsRow2()
    requires CombinationsUpTo(Words, 2, 0) == [("oneight", "18"), ("twone", "21")]
    ensures CombinationsUpTo(Words, 3, 0) == [("oneight", "18"), ("twone", "21"), ("threeight", "38")]
  {
    assert Words[2] == ("three", "3");
    assert CombinationsUpTo(Words, 2, 1) == CombinationsUpTo(Words, 2, 0);
    assert CombinationsUpTo(Words, 2, 2) == CombinationsUpTo(Words, 2, 1);
    assert CombinationsUpTo(Words, 2, 3) == CombinationsUpTo(Words, 2, 2);
    assert CombinationsUpTo(Words, 2, 4) == CombinationsUpTo(Words, 2, 3);
    assert CombinationsUpTo(Words, 2, 5) == CombinationsUpTo(Words, 2, 4);
    assert CombinationsUpTo(Words, 2, 6) == CombinationsUpTo(Words, 2, 5);
    assert CombinationsUpTo(Words, 2, 7) == CombinationsUpTo(Words, 2, 6);
    assert CombinationsUpTo(Words, 2, 7) == [("oneight", "18"), ("twone", "21")];
    assert Words[7] == ("eight", "8");
    assert Overlapped("three", "eight") == "threeight";
    assert "3" + "8" == "38";
    CombineNew(Words, [("oneight", "18"), ("twone", "21")], 2, 7);
    assert CombinationsUpTo(Words, 2, 9) == CombinationsUpTo(Words, 2, 8);
    assert CombinationsUpTo(Words, 2, 10) == CombinationsUpTo(Words, 2, 9);
  }

  lemma WordsRow3()
    requires CombinationsUpTo(Words, 3, 0) == [("oneight", "18"), ("twone", "21"), ("threeight", "38")]
    ensures CombinationsUpTo(Words, 4, 0) == [("oneight", "18"), ("twone", "21"), ("threeight", "38")]
  {
    assert Words[3] == ("four", "4");
    assert CombinationsUpTo(Words, 3, 1) == CombinationsUpTo(Words, 3, 0);
    assert CombinationsUpTo(Words, 3, 2) == CombinationsUpTo(Words, 3, 1);
    assert CombinationsUpTo(Words, 3, 3) == CombinationsUpTo(Words, 3, 2);
    assert CombinationsUpTo(Words, 3, 4) == CombinationsUpTo(Words, 3, 3);
    assert CombinationsUpTo(Words, 3, 5) == CombinationsUpTo(Words, 3, 4);
    assert CombinationsUpTo(Words, 3, 6) == CombinationsUpTo(Words, 3, 5);
    assert CombinationsUpTo(Words, 3, 7) == CombinationsUpTo(Words, 3, 6);
    assert CombinationsUpTo(Words, 3, 8) == CombinationsUpTo(Words, 3, 7);
    assert CombinationsUpTo(Words, 3, 9) == CombinationsUpTo(Words, 3, 8);
    assert CombinationsUpTo(Words, 3, 10) == CombinationsUpTo(Words, 3, 9);
  }

  lemma WordsRow4()
    requires CombinationsUpTo(Words, 4, 0) == [("oneight", "18"), ("twone", "21"), ("threeight", "38")]
    ensures CombinationsUpTo(Words, 5, 0) == [("oneight", "18"), ("twone", "21"), ("threeight", "38"), ("fiveight", "58")]
  {
    assert Words[4] == ("five", "5");
    assert CombinationsUpTo(Words, 4, 1) == CombinationsUpTo(Words, 4, 0);
    assert CombinationsUpTo(Words, 4, 2) == CombinationsUpTo(Words, 4, 1);
    assert CombinationsUpTo(Words, 4, 3) == CombinationsUpTo(Words, 4, 2);
    assert CombinationsUpTo(Words, 4, 4) == CombinationsUpTo(Words, 4, 3);
    assert CombinationsUpTo(Words, 4, 5) == CombinationsUpTo(Words, 4, 4);
    assert CombinationsUpTo(Words, 4, 6) == CombinationsUpTo(Words, 4, 5);
    assert CombinationsUpTo(Words, 4, 7) == CombinationsUpTo(Words, 4, 6);
    assert CombinationsUpTo(Words, 4, 7) == [("oneight", "18"), ("twone", "21"), ("threeight", "38")];
    assert Words[7] == ("eight", "8");
    assert Overlapped("five", "eight") == "fiveight";
    assert "5" + "8" == "58";
    CombineNew(Words, [("oneight", "18"), ("twone", "21"), ("threeight", "38")], 4, 7);
    assert CombinationsUpTo(Words, 4, 9) == CombinationsUpTo(Words, 4, 8);
    assert CombinationsUpTo(Words, 4, 10) == CombinationsUpTo(Words, 4, 9);
  }

  lemma WordsRow5()
    requires CombinationsUpTo(Words, 5, 0) == [("oneight", "18"), ("twone", "21"), ("threeight", "38"), ("fiveight", "58")]
    ensures CombinationsUpTo(Words, 6, 0) == [("oneight", "18"), ("twone", "21"), ("threeight", "38"), ("fiveight", "58")]
  {
    assert Words[5] == ("six", "6");
    assert CombinationsUpTo(Words, 5, 1) == CombinationsUpTo(Words, 5, 0);
    assert CombinationsUpTo(Words, 5, 2) == CombinationsUpTo(Words, 5, 1);
    assert CombinationsUpTo(Words, 5, 3) == CombinationsUpTo(Words, 5, 2);
    assert CombinationsUpTo(Words, 5, 4) == CombinationsUpTo(Words, 5, 3);
    assert CombinationsUpTo(Words, 5, 5) == CombinationsUpTo(Words, 5, 4);
    assert CombinationsUpTo(Words, 5, 6) == CombinationsUpTo(Words, 5, 5);
    assert CombinationsUpTo(Words, 5, 7) == CombinationsUpTo(Words, 5, 6);
    assert CombinationsUpTo(Words, 5, 8) == CombinationsUpTo(Words, 5, 7);
    assert CombinationsUpTo(Words, 5, 9) == CombinationsUpTo(Words, 5, 8);
    assert CombinationsUpTo(Words, 5, 10) == CombinationsUpTo(Words, 5, 9);
  }

  lemma WordsRow6()
    requires CombinationsUpTo(Words, 6, 0) == [("oneight", "18"), ("twone", "21"), ("threeight", "38"), ("fiveight", "58")]
    ensures CombinationsUpTo(Words, 7, 0) == [("oneight", "18"), ("twone", "21"), ("threeight", "38"), ("fiveight", "58"), ("sevenine", "79")]
  {
    assert Words[6] == ("seven", "7");
    assert CombinationsUpTo(Words, 6, 1) == CombinationsUpTo(Words, 6, 0);
    assert CombinationsUpTo(Words, 6, 2) == CombinationsUpTo(Words, 6, 1);
    assert CombinationsUpTo(Words, 6, 3) == CombinationsUpTo(Words, 6, 2);
    assert CombinationsUpTo(Words, 6, 4) == CombinationsUpTo(Words, 6, 3);
    assert CombinationsUpTo(Words, 6, 5) == CombinationsUpTo(Words, 6, 4);
    assert CombinationsUpTo(Words, 6, 6) == CombinationsUpTo(Words, 6, 5);
    assert CombinationsUpTo(Words, 6, 7) == CombinationsUpTo(Words, 6, 6);
    assert CombinationsUpTo(Words, 6, 8) == CombinationsUpTo(Words, 6, 7);
    assert CombinationsUpTo(Words, 6, 8) == [("oneight", "18"), ("twone", "21"), ("threeight", "38"), ("fiveight", "58")];
    assert Words[8] == ("nine", "9");
    assert Overlapped("seven", "nine") == "sevenine";
    assert "7" + "9" == "79";
    CombineNew(Words, [("oneight", "18"), ("twone", "21"), ("threeight", "38"), ("fiveight", "58")], 6, 8);
    assert CombinationsUpTo(Words, 6, 10) == CombinationsUpTo(Words, 6, 9);
  }

  lemma WordsRow7()
    requires CombinationsUpTo(Words, 7, 0) == [("oneight", "18"), ("twone", "21"), ("threeight", "38"), ("fiveight", "58"), ("sevenine", "79")]
    ensures CombinationsUpTo(Words, 8, 0) == [("oneight", "18"), ("twone", "21"), ("threeight", "38"), ("fiveight", "58"), ("sevenine", "79"), ("eightwo", "82"), ("eighthree", "83")]
  {
    WordsRow7Joins();
    WordsRow7Rest();
  }

  lemma WordsRow7Joins()
    requires CombinationsUpTo(Words, 7, 0) == [("oneight", "18"), ("twone", "21"), ("threeight", "38"), ("fiveight", "58"), ("sevenine", "79")]
    ensures CombinationsUpTo(Words, 7, 3) == [("oneight", "18"), ("twone", "21"), ("threeight", "38"), ("fiveight", "58"), ("sevenine", "79"), ("eightwo", "82"), ("eighthree", "83")]
  {
    assert Words[7] == ("eight", "8");
    assert CombinationsUpTo(Words, 7, 1) == CombinationsUpTo(Words, 7, 0);
    assert Words[1] == ("two", "2");
    assert Overlapped("eight", "two") == "eightwo";
    assert "8" + "2" == "82";
    CombineNew(Words, [("oneight", "18"), ("twone", "21"), ("threeight", "38"), ("fiveight", "58"), ("sevenine", "79")], 7, 1);
    assert CombinationsUpTo(Words, 7, 2) == [("oneight", "18"), ("twone", "21"), ("threeight", "38"), ("fiveight", "58"), ("sevenine", "79"), ("eightwo", "82")];
    assert Words[2] == ("three", "3");
    assert Overlapped("eight", "three") == "eighthree";
    assert "8" + "3" == "83";
    CombineNew(Words, [("oneight", "18"), ("twone", "21"), ("threeight", "38"), ("fiveight", "58"), ("sevenine", "79"), ("eightwo", "82")], 7, 2);
  }

  lemma WordsRow7Rest()
    requires CombinationsUpTo(Words, 7, 3) == [("oneight", "18"), ("twone", "21"), ("threeight", "38"), ("fiveight", "58"), ("sevenine", "79"), ("eightwo", "82"), ("eighthree", "83")]
    ensures CombinationsUpTo(Words, 8, 0) == [("oneight", "18"), ("twone", "21"), ("threeight", "38"), ("fiveight", "58"), ("sevenine", "79"), ("eightwo", "82"), ("eighthree", "83")]
  {
    assert Words[7] == ("eight", "8");
    assert CombinationsUpTo(Words, 7, 4) == CombinationsUpTo(Words, 7, 3);
    assert CombinationsUpTo(Words, 7, 5) == CombinationsUpTo(Words, 7, 4);
    assert CombinationsUpTo(Words, 7, 6) == CombinationsUpTo(Words, 7, 5);
    assert CombinationsUpTo(Words, 7, 7) == CombinationsUpTo(Words, 7, 6);
    assert CombinationsUpTo(Words, 7, 8) == CombinationsUpTo(Words, 7, 7);
    assert CombinationsUpTo(Words, 7, 9) == CombinationsUpTo(Words, 7, 8);
    assert CombinationsUpTo(Words, 7, 10) == CombinationsUpTo(Words, 7, 9);
  }

  lemma WordsRow8()
    requires CombinationsUpTo(Words, 8, 0) == [("oneight", "18"), ("twone", "21"), ("threeight", "38"), ("fiveight", "58"), ("sevenine", "79"), ("eightwo", "82"), ("eighthree", "83")]
    ensures CombinationsUpTo(Words, 9, 0) == [("oneight", "18"), ("twone", "21"), ("threeight", "38"), ("fiveight", "58"), ("sevenine", "79"), ("eightwo", "82"), ("eighthree", "83"), ("nineight", "98")]
  {
    assert Words[8] == ("nine", "9");
    assert CombinationsUpTo(Words, 8, 1) == CombinationsUpTo(Words, 8, 0);
    assert CombinationsUpTo(Words, 8, 2) == CombinationsUpTo(Words, 8, 1);
    assert CombinationsUpTo(Words, 8, 3) == CombinationsUpTo(Words, 8, 2);
    assert CombinationsUpTo(Words, 8, 4) == CombinationsUpTo(Words, 8, 3);
    assert CombinationsUpTo(Words, 8, 5) == CombinationsUpTo(Words, 8, 4);
    assert CombinationsUpTo(Words, 8, 6) == CombinationsUpTo(Words, 8, 5);
    assert CombinationsUpTo(Words, 8, 7) == CombinationsUpTo(Words, 8, 6);
    assert CombinationsUpTo(Words, 8, 7) == [("oneight", "18"), ("twone", "21"), ("threeight", "38"), ("fiveight", "58"), ("sevenine", "79"), ("eightwo", "82"), ("eighthree", "83")];
    assert Words[7] == ("eight", "8");
    assert Overlapped("nine", "eight") == "nineight";
    assert "9" + "8" == "98";
    CombineNew(Words, [("oneight", "18"), ("twone", "21"), ("threeight", "38"), ("fiveight", "58"), ("sevenine", "79"), ("eightwo", "82"), ("eighthree", "83")], 8, 7);
    assert CombinationsUpTo(Words, 8, 9) == CombinationsUpTo(Words, 8, 8);
    assert CombinationsUpTo(Words, 8, 10) == CombinationsUpTo(Words, 8, 9);
  }

  lemma WordsRow9()
    requires CombinationsUpTo(Words, 9, 0) == [("oneight", "18"), ("twone", "21"), ("threeight", "38"), ("fiveight", "58"), ("sevenine", "79"), ("eightwo", "82"), ("eighthree", "83"), ("nineight", "98")]
    ensures CombinationsUpTo(Words, 10, 0) == [("oneight", "18"), ("twone", "21"), ("threeight", "38"), ("fiveight", "58"), ("sevenine", "79"), ("eightwo", "82"), ("eighthree", "83"), ("nineight", "98"), ("zerone", "01")]
  {
    assert Words[9] == ("zero", "0");
    assert CombinationsUpTo(Words, 9, 0) == [("oneight", "18"), ("twone", "21"), ("threeight", "38"), ("fiveight", "58"), ("sevenine", "79"), ("eightwo", "82"), ("eighthree", "83"), ("nineight", "98")];
    assert Words[0] == ("one", "1");
    assert Overlapped("zero", "one") == "zerone";
    assert "0" + "1" == "01";
    CombineNew(Words, [("oneight", "18"), ("twone", "21"), ("threeight", "38"), ("fiveight", "58"), ("sevenine", "79"), ("eightwo", "82"), ("eighthree", "83"), ("nineight", "98")], 9, 0);
    assert CombinationsUpTo(Words, 9, 2) == CombinationsUpTo(Words, 9, 1);
    assert CombinationsUpTo(Words, 9, 3) == CombinationsUpTo(Words, 9, 2);
    assert CombinationsUpTo(Words, 9, 4) == CombinationsUpTo(Words, 9, 3);
    assert CombinationsUpTo(Words, 9, 5) == CombinationsUpTo(Words, 9, 4);
    assert CombinationsUpTo(Words, 9, 6) == CombinationsUpTo(Words, 9, 5);
    assert CombinationsUpTo(Words, 9, 7) == CombinationsUpTo(Words, 9, 6);
    assert CombinationsUpTo(Words, 9, 8) == CombinationsUpTo(Words, 9, 7);
    assert CombinationsUpTo(Words, 9, 9) == CombinationsUpTo(Words, 9, 8);
    assert CombinationsUpTo(Words, 9, 10) == CombinationsUpTo(Words, 9, 9);
  }

  /** A joinable pair whose key is new goes at the end of the table. */
  lemma CombineNew(numbers: Table, table: Table, i: nat, j: nat)
    requires i < |numbers| && j < |numbers|
    requires Joinable(numbers[i].0, numbers[j].0)
    requires !HasKey(table, Overlapped(numbers[i].0, numbers[j].0))
    ensures Combine(numbers, table, i, j) ==
      table + [(Overlapped(numbers[i].0, numbers[j].0), numbers[i].1 + numbers[j].1)]
  {
    AssignNew(table, Overlapped(numbers[i].0, numbers[j].0), numbers[i].1 + numbers[j].1);
  }

  /** Assigning a key the table lacks appends it. */
  lemma {:induction false} AssignNew(table: Table, key: string, value: string)
    requires !HasKey(table, key)
    ensures Assign(table, key, value) == table + [(key, value)]
  {
    if table != [] {
      assert table[0].0 != key;
      assert forall k :: 0 <= k < |table[1..]| ==> table[1..][k] == table[k + 1];
      AssignNew(table[1..], key, value);
    }
  }

  lemma CombinationKeysNonEmpty(numbers: Table)
    ensures NonEmptyKeys(CombinationsOf(numbers))
  {
    CombinationsShape(numbers);
    var t := CombinationsOf(numbers);
    forall k | 0 <= k < |t| ensures t[k].0 != []
    {
      assert IsCombination(numbers, t[k]);
    }
  }

  // ---------------------------------------------------------------------
  // Rewriting a line

  /** `for key, value in table.items(): s = s.replace(key, value)`. */
  function ReplaceEach(s: string, table: Table): string
    requires NonEmptyKeys(table)
    decreases |table|
  {
    if table == [] then s else ReplaceEach(Replace(s, table[0].0, table[0].1), table[1..])
  }

  /** The line after every combination and then every number word has been
      replaced by its digits. */
  function Rewritten(numbers: Table, line: string): string
    requires NonEmptyKeys(numbers)
  {
    CombinationKeysNonEmpty(numbers);
    ReplaceEach(ReplaceEach(line, CombinationsOf(numbers)), numbers)
  }

  /** Lines 39-43 of d1y2023.py (43-47 of trebuchet.py): the two replace loops. */
  method Rewrite(numbers: Table, combinations: Table, line: string) returns (out: string)
    requires NonEmptyKeys(numbers)
    requires combinations == CombinationsOf(numbers)
    ensures out == Rewritten(numbers, line)
  {
    CombinationKeysNonEmpty(numbers);
    out := line;
    for k := 0 to |combinations|
      invariant ReplaceEach(line, combinations) == ReplaceEach(out, combinations[k..])
    {
      assert combinations[k..][1..] == combinations[k + 1..];
      out := Replace(out, combinations[k].0, combinations[k].1);
    }
    var mid := out;
    for k := 0 to |numbers|
      invariant ReplaceEach(mid, numbers) == ReplaceEach(out, numbers[k..])
    {
      assert numbers[k..][1..] == numbers[k + 1..];
      out := Replace(out, numbers[k].0, numbers[k].1);
    }
  }

  /** Replacing keys none of which occurs changes nothing. */
  lemma {:induction false} ReplaceEachAbsent(s: string, table: Table)
    requires NonEmptyKeys(table)
    requires forall k :: 0 <= k < |table| ==> !Contains(s, table[k].0)
    ensures ReplaceEach(s, table) == s
    decreases |table|
  {
    if table != [] {
      ReplaceAbsent(s, table[0].0, table[0].1);
      ReplaceEachAbsent(s, table[1..]);
    }
  }

  /** A line in which no number word occurs is not rewritten at all. */
  lemma WordFreeLine(numbers: Table, line: string)
    requires NonEmptyKeys(numbers)
    requires forall k :: 0 <= k < |numbers| ==> !Contains(line, numbers[k].0)
    ensures Rewritten(numbers, line) == line
  {
    CombinationKeysNonEmpty(numbers);
    CombinationsShape(numbers);
    var t := CombinationsOf(numbers);
    forall k | 0 <= k < |t| ensures !Contains(line, t[k].0)
    {
      var e := t[k];
      assert IsCombination(numbers, e);
      var i, j :| 0 <= i < |numbers| && 0 <= j < |numbers| && Joinable(numbers[i].0, numbers[j].0) &&
        e == (Overlapped(numbers[i].0, numbers[j].0), numbers[i].1 + numbers[j].1);
      if Contains(line, e.0) {
        ContainsSuffix(line, numbers[i].0[..|numbers[i].0| - 1], numbers[j].0);
      }
    }
    ReplaceEachAbsent(line, t);
    ReplaceEachAbsent(line, numbers);
  }

  // ---------------------------------------------------------------------
  // Calibration values

  predicate NoDigits(s: string)
  {
    forall i :: 0 <= i < |s| ==> !IsDigit(s[i])
  }

  /** `int(line[0] + line[-1])` on the digits of the rewritten line: the
      IndexError of an empty line, or the number its first and last digit
      spell. */
  function LineCalibration(numbers: Table, line: string): (r: Outcome<nat>)
    requires NonEmptyKeys(numbers)
    ensures r.Raise? <==> NoDigits(Rewritten(numbers, line))
    ensures r.Raise? <==> FilterDigits(Rewritten(numbers, line)) == []
    ensures r.Raise? ==> r.error == IndexError
    ensures r.Ok? ==> r.value <= 99
    ensures r.Ok? ==> FilterDigits(Rewritten(numbers, line)) != []
    ensures r.Ok? ==> var d := FilterDigits(Rewritten(numbers, line));
      r.value == 10 * DigitValue(d[0]) + DigitValue(d[|d| - 1])
  {
    var digits := FilterDigits(Rewritten(numbers, line));
    FilterDigitsEmpty(Rewritten(numbers, line));
    if digits == [] then Raise(IndexError)
    else
      CalibrationPair(digits[0], digits[|digits| - 1]);
      Ok(DecimalValue([digits[0], digits[|digits| - 1]]))
  }

  /** The two-digit string of a first and a last digit. */
  lemma CalibrationPair(first: char, last: char)
    requires IsDigit(first) && IsDigit(last)
    ensures DecimalValue([first, last]) == 10 * DigitValue(first) + DigitValue(last)
  {
    var pair := [first, last];
    assert pair[..1] == [first] && [first][..0] == [];
    assert DecimalValue([first]) == 10 * DecimalValue([]) + DigitValue(first);
  }

  /** A line without number words is calibrated by its own first and last digit. */
  lemma WordFreeCalibration(numbers: Table, line: string)
    requires NonEmptyKeys(numbers)
    requires forall k :: 0 <= k < |numbers| ==> !Contains(line, numbers[k].0)
    ensures var d := FilterDigits(line);
      LineCalibration(numbers, line) ==
        if d == [] then Raise(IndexError) else Ok(10 * DigitValue(d[0]) + DigitValue(d[|d| - 1]))
  {
    WordFreeLine(numbers, line);
    FilterDigitsEmpty(line);
  }

  /** The `calibrations` list for the given lines, or the first exception. */
  function Calibrations(numbers: Table, lines: seq<string>): Outcome<seq<nat>>
    requires NonEmptyKeys(numbers)
  {
    if lines == [] then Ok([])
    else match LineCalibration(numbers, lines[0])
      case Raise(e) => Raise(e)
      case Ok(c) => After([c], Calibrations(numbers, lines[1..]))
  }

  /** Lines 36-53 of d1y2023.py (40-58 of trebuchet.py): rewrite every line,
      keep its digits, collect `int(line[0] + line[-1])` and add up. */
  method SumCalibrations(numbers: Table, combinations: Table, text: string) returns (r: Outcome<nat>)
    requires NonEmptyKeys(numbers)
    requires combinations == CombinationsOf(numbers)
    ensures r == CalibrationSum(numbers, text)
  {
    var calibrations: seq<nat> := [];
    var lines := SplitLines(text);
    AfterNothing(Calibrations(numbers, lines));
    for k := 0 to |lines|
      invariant Calibrations(numbers, lines) == After(calibrations, Calibrations(numbers, lines[k..]))
    {
      var line := Rewrite(numbers, combinations, lines[k]);
      line := FilterDigits(line);
      if line == [] {
        CalibrationsFail(numbers, text, calibrations, k);
        return Raise(IndexError);
      }
      CalibrationPair(line[0], line[|line| - 1]);
      var calibration := DecimalValue([line[0], line[|line| - 1]]);
      CalibrationStep(numbers, lines, k);
      calibrations := calibrations + [calibration];
    }
    CalibrationsDone(numbers, text, calibrations);
    return Ok(Sum(calibrations));
  }

  /** Every line collected: the sum is the sum of what was collected. */
  lemma CalibrationsDone(numbers: Table, text: string, done: seq<nat>)
    requires NonEmptyKeys(numbers)
    requires Calibrations(numbers, SplitLines(text)) ==
      After(done, Calibrations(numbers, SplitLines(text)[|SplitLines(text)|..]))
    ensures CalibrationSum(numbers, text) == Ok(Sum(done))
  {
    var lines := SplitLines(text);
    assert lines[|lines|..] == [];
    assert done + [] == done;
  }

  /** A line without digits: the sum fails with that line's exception. */
  lemma CalibrationsFail(numbers: Table, text: string, done: seq<nat>, k: nat)
    requires NonEmptyKeys(numbers)
    requires k < |SplitLines(text)|
    requires Calibrations(numbers, SplitLines(text)) ==
      After(done, Calibrations(numbers, SplitLines(text)[k..]))
    requires LineCalibration(numbers, SplitLines(text)[k]).Raise?
    ensures CalibrationSum(numbers, text) == Raise(IndexError)
  {
    CalibrationStep(numbers, SplitLines(text), k);
  }

  /** One turn of the solvers' line loop: the calibrations of `lines[k..]`
      are the one of `lines[k]` followed by the rest, and values already
      collected stay in front. */
  lemma CalibrationStep(numbers: Table, lines: seq<string>, k: nat)
    requires NonEmptyKeys(numbers)
    requires k < |lines|
    ensures LineCalibration(numbers, lines[k]).Raise? ==>
      Calibrations(numbers, lines[k..]) == Raise(LineCalibration(numbers, lines[k]).error)
    ensures forall done :: LineCalibration(numbers, lines[k]).Ok? ==>
      After(done, Calibrations(numbers, lines[k..])) ==
      After(done + [LineCalibration(numbers, lines[k]).value], Calibrations(numbers, lines[k + 1..]))
  {
    assert lines[k..][0] == lines[k] && lines[k..][1..] == lines[k + 1..];
    forall done | LineCalibration(numbers, lines[k]).Ok?
      ensures After(done, Calibrations(numbers, lines[k..])) ==
        After(done + [LineCalibration(numbers, lines[k]).value], Calibrations(numbers, lines[k + 1..]))
    {
      var rest := Calibrations(numbers, lines[k + 1..]);
      if rest.Ok? {
        var c := LineCalibration(numbers, lines[k]).value;
        assert done + ([c] + rest.value) == done + [c] + rest.value;
      }
    }
  }

  /** What both solvers return for `text`: the sum of the calibrations of its
      lines, or the IndexError of the first line left without digits. */
  function CalibrationSum(numbers: Table, text: string): Outcome<nat>
    requires NonEmptyKeys(numbers)
  {
    match Calibrations(numbers, SplitLines(text))
    case Raise(e) => Raise(e)
    case Ok(cs) => Ok(Sum(cs))
  }

  /** The calibration list has one value per line, each the line's calibration. */
  lemma {:induction false} CalibrationsShape(numbers: Table, lines: seq<string>)
    requires NonEmptyKeys(numbers)
    ensures Calibrations(numbers, lines).Ok? <==>
      forall k :: 0 <= k < |lines| ==> LineCalibration(numbers, lines[k]).Ok?
    ensures Calibrations(numbers, lines).Raise? ==> Calibrations(numbers, lines).error == IndexError
    ensures Calibrations(numbers, lines).Ok? ==> |Calibrations(numbers, lines).value| == |lines|
    ensures Calibrations(numbers, lines).Ok? ==>
      forall k :: 0 <= k < |lines| ==> Calibrations(numbers, lines).value[k] == LineCalibration(numbers, lines[k]).value
  {
    if lines != [] {
      CalibrationsShape(numbers, lines[1..]);
      assert forall k :: 1 <= k < |lines| ==> lines[1..][k - 1] == lines[k];
    }
  }

  /** The sum fails exactly when some line keeps no digit after rewriting,
      and otherwise lies between 0 and 99 per line. */
  lemma CalibrationSumBounds(numbers: Table, text: string)
    requires NonEmptyKeys(numbers)
    ensures CalibrationSum(numbers, text).Raise? <==>
      exists k :: 0 <= k < |SplitLines(text)| && NoDigits(Rewritten(numbers, SplitLines(text)[k]))
    ensures CalibrationSum(numbers, text).Raise? ==> CalibrationSum(numbers, text).error == IndexError
    ensures CalibrationSum(numbers, text).Ok? ==> CalibrationSum(numbers, text).value <= 99 * |SplitLines(text)|
  {
    var lines := SplitLines(text);
    CalibrationsShape(numbers, lines);
    if Calibrations(numbers, lines).Ok? {
      SumBound(Calibrations(numbers, lines).value, 99);
    }
  }
}
