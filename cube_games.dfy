/** The games behind the Cube Conundrum text, and what the solver computes
    for them.

    A game is an id and its rounds, a round the draws shown at once, a draw
    a count of cubes of one colour.  `GameText` writes a game the way the
    puzzle input does.  On such text the first pass of `CubeConundrum`
    finds a game possible exactly when no draw exceeds the cubes of its
    colour in the bag, and the second pass finds, per colour, the largest
    count drawn.
 */
module CubeGames {
  import opened Prelude
  import opened Text
  import opened CubeConundrum

  datatype Colour = Red | Green | Blue

  datatype Draw = Draw(count: nat, colour: Colour)

  datatype Game = Game(id: nat, rounds: seq<seq<Draw>>)

  function Name(c: Colour): string
  {
    match c
    case Red => "red"
    case Green => "green"
    case Blue => "blue"
  }

  /** The cubes of colour `c` in the bag. */
  function Limit(c: Colour): nat
  {
    match c
    case Red => RedLimit
    case Green => GreenLimit
    case Blue => BlueLimit
  }

  /** Every round shows at least one draw, and there is at least one round. */
  predicate WellFormed(g: Game)
  {
    g.rounds != [] && forall i :: 0 <= i < |g.rounds| ==> g.rounds[i] != []
  }

  // ---------------------------------------------------------------------
  // What the puzzle asks

  predicate DrawPossible(d: Draw)
  {
    d.count <= Limit(d.colour)
  }

  predicate RoundPossible(ds: seq<Draw>)
  {
    forall k :: 0 <= k < |ds| ==> DrawPossible(ds[k])
  }

  /** The game could have been played with the cubes in the bag. */
  predicate Possible(g: Game)
  {
    forall i :: 0 <= i < |g.rounds| ==> RoundPossible(g.rounds[i])
  }

  function Max(a: nat, b: nat): nat
  {
    if a < b then b else a
  }

  /** The largest count of colour `c` among `ds`, or 0. */
  function MostIn(ds: seq<Draw>, c: Colour): nat
  {
    if ds == [] then 0 else Max(if ds[0].colour == c then ds[0].count else 0, MostIn(ds[1..], c))
  }

  /** The largest count of colour `c` in any round, or 0. */
  function Most(rounds: seq<seq<Draw>>, c: Colour): nat
  {
    if rounds == [] then 0 else Max(MostIn(rounds[0], c), Most(rounds[1..], c))
  }

  /** `Most` is the largest count drawn of that colour: no draw exceeds it,
      and unless it is 0 some draw has exactly that count. */
  lemma {:induction false} MostIsLargest(rounds: seq<seq<Draw>>, c: Colour)
    ensures forall i, k :: 0 <= i < |rounds| && 0 <= k < |rounds[i]| && rounds[i][k].colour == c ==>
      rounds[i][k].count <= Most(rounds, c)
    ensures Most(rounds, c) == 0 ||
      exists i, k :: 0 <= i < |rounds| && 0 <= k < |rounds[i]| && rounds[i][k] == Draw(Most(rounds, c), c)
  {
    if rounds != [] {
      MostIsLargest(rounds[1..], c);
      MostInIsLargest(rounds[0], c);
      if Most(rounds, c) != 0 {
        if MostIn(rounds[0], c) >= Most(rounds[1..], c) {
          var k :| 0 <= k < |rounds[0]| && rounds[0][k] == Draw(MostIn(rounds[0], c), c);
          assert rounds[0][k] == Draw(Most(rounds, c), c);
        } else {
          var i, k :| 0 <= i < |rounds[1..]| && 0 <= k < |rounds[1..][i]| &&
            rounds[1..][i][k] == Draw(Most(rounds[1..], c), c);
          assert rounds[i + 1][k] == Draw(Most(rounds, c), c);
        }
      }
      forall i, k | 0 <= i < |rounds| && 0 <= k < |rounds[i]| && rounds[i][k].colour == c
        ensures rounds[i][k].count <= Most(rounds, c)
      {
        if i > 0 {
          assert rounds[i] == rounds[1..][i - 1];
        }
      }
    }
  }

  lemma {:induction false} MostInIsLargest(ds: seq<Draw>, c: Colour)
    ensures forall k :: 0 <= k < |ds| && ds[k].colour == c ==> ds[k].count <= MostIn(ds, c)
    ensures MostIn(ds, c) == 0 || exists k :: 0 <= k < |ds| && ds[k] == Draw(MostIn(ds, c), c)
  {
    if ds != [] {
      MostInIsLargest(ds[1..], c);
      if MostIn(ds, c) != 0 && !(ds[0].colour == c && ds[0].count == MostIn(ds, c)) {
        var k :| 0 <= k < |ds[1..]| && ds[1..][k] == Draw(MostIn(ds[1..], c), c);
        assert ds[k + 1] == Draw(MostIn(ds, c), c);
      }
      forall k | 0 <= k < |ds| && ds[k].colour == c ensures ds[k].count <= MostIn(ds, c)
      {
        if k > 0 {
          assert ds[k] == ds[1..][k - 1];
        }
      }
    }
  }

  /** The fewest cubes of each colour the game could have been played with. */
  function FewestPower(g: Game): nat
  {
    Most(g.rounds, Red) * Most(g.rounds, Green) * Most(g.rounds, Blue)
  }

  // ---------------------------------------------------------------------
  // The puzzle text

  /** ` <count> <colour>` */
  function DrawText(d: Draw): string
  {
    " " + Str(d.count) + " " + Name(d.colour)
  }

  function DrawTexts(ds: seq<Draw>): (r: seq<string>)
    ensures |r| == |ds|
  {
    if ds == [] then [] else [DrawText(ds[0])] + DrawTexts(ds[1..])
  }

  function RoundText(ds: seq<Draw>): string
  {
    Join(DrawTexts(ds), ',')
  }

  function RoundTexts(rounds: seq<seq<Draw>>): (r: seq<string>)
    ensures |r| == |rounds|
  {
    if rounds == [] then [] else [RoundText(rounds[0])] + RoundTexts(rounds[1..])
  }

  /** `Game <id>: <count> <colour>, ...; ...` */
  function GameText(g: Game): string
  {
    "Game " + Str(g.id) + ":" + Join(RoundTexts(g.rounds), ';')
  }

  function GameTexts(games: seq<Game>): (r: seq<string>)
    ensures |r| == |games|
  {
    if games == [] then [] else [GameText(games[0])] + GameTexts(games[1..])
  }

  // ---------------------------------------------------------------------
  // Which characters a text holds

  /** The punctuation of a game line, which no number and no colour holds. */
  predicate Punctuation(c: char)
  {
    c == ':' || c == ';' || c == ',' || c == '\n'
  }

  lemma DrawTextLacks(d: Draw, c: char)
    requires Punctuation(c)
    ensures c !in DrawText(d)
  {
    StrLacks(d.count, c);
  }

  lemma {:induction false} RoundTextLacks(ds: seq<Draw>, c: char)
    requires Punctuation(c) && c != ','
    ensures c !in RoundText(ds)
  {
    forall k | 0 <= k < |DrawTexts(ds)| ensures c !in DrawTexts(ds)[k]
    {
      DrawTextsAt(ds, k);
      DrawTextLacks(ds[k], c);
    }
    JoinAbsent(DrawTexts(ds), ',', c);
  }

  lemma {:induction false} DrawTextsAt(ds: seq<Draw>, k: nat)
    requires k < |ds|
    ensures DrawTexts(ds)[k] == DrawText(ds[k])
  {
    if k > 0 {
      DrawTextsAt(ds[1..], k - 1);
    }
  }

  lemma {:induction false} RoundTextsAt(rounds: seq<seq<Draw>>, i: nat)
    requires i < |rounds|
    ensures RoundTexts(rounds)[i] == RoundText(rounds[i])
  {
    if i > 0 {
      RoundTextsAt(rounds[1..], i - 1);
    }
  }

  lemma RoundsTextLacks(rounds: seq<seq<Draw>>, c: char)
    requires c == ':' || c == '\n'
    ensures c !in Join(RoundTexts(rounds), ';')
    ensures forall i :: 0 <= i < |rounds| ==> ';' !in RoundTexts(rounds)[i]
  {
    forall i | 0 <= i < |rounds|
      ensures c !in RoundTexts(rounds)[i] && ';' !in RoundTexts(rounds)[i]
    {
      RoundTextsAt(rounds, i);
      RoundTextLacks(rounds[i], c);
      RoundTextLacks(rounds[i], ';');
    }
    JoinAbsent(RoundTexts(rounds), ';', c);
  }

  lemma GameTextLacksBreak(g: Game)
    ensures '\n' !in GameText(g)
  {
    RoundsTextLacks(g.rounds, '\n');
    StrLacks(g.id, '\n');
  }

  // ---------------------------------------------------------------------
  // The first pass on the puzzle text

  /** A draw once its colour was replaced by the number of cubes in the bag. */
  function LimitedDraw(d: Draw): string
  {
    " " + Str(d.count) + " " + Str(Limit(d.colour))
  }

  function LimitedDraws(ds: seq<Draw>): (r: seq<string>)
    ensures |r| == |ds|
  {
    if ds == [] then [] else [LimitedDraw(ds[0])] + LimitedDraws(ds[1..])
  }

  function LimitedRounds(rounds: seq<seq<Draw>>): (r: seq<string>)
    ensures |r| == |rounds|
  {
    if rounds == [] then [] else [Join(LimitedDraws(rounds[0]), ',')] + LimitedRounds(rounds[1..])
  }

  /** A separator that no colour name holds splits the replacing in two. */
  lemma LimitedSeparated(a: string, c: char, b: string)
    requires c == ' ' || c == ',' || c == ';'
    ensures Limited(a + [c] + b) == Limited(a) + [c] + Limited(b)
  {
    var r1 := Replace(a, "red", Str(RedLimit));
    var r2 := Replace(b, "red", Str(RedLimit));
    ReplaceSeparated(a, c, b, "red", Str(RedLimit));
    ReplaceSeparated(r1, c, r2, "green", Str(GreenLimit));
    ReplaceSeparated(Replace(r1, "green", Str(GreenLimit)), c, Replace(r2, "green", Str(GreenLimit)), "blue", Str(BlueLimit));
  }

  /** A number holds no colour name. */
  lemma DigitsLackNames(s: string)
    requires IsDigits(s)
    ensures !Contains(s, "red") && !Contains(s, "green") && !Contains(s, "blue")
  {
    ContainsFirst(s, "red");
    ContainsFirst(s, "green");
    ContainsFirst(s, "blue");
    assert 'r' !in s && 'g' !in s && 'b' !in s;
  }

  lemma LimitedDigits(s: string)
    requires IsDigits(s)
    ensures Limited(s) == s
  {
    DigitsLackNames(s);
    ReplaceAbsent(s, "red", Str(RedLimit));
    ReplaceAbsent(s, "green", Str(GreenLimit));
    ReplaceAbsent(s, "blue", Str(BlueLimit));
  }

  lemma LimitedEmpty()
    ensures Limited([]) == []
  {
    LimitedDigits([]);
  }

  /** Each colour name becomes its own limit. */
  lemma LimitedName(c: Colour)
    ensures Limited(Name(c)) == Str(Limit(c))
  {
    match c
    case Red =>
      ReplaceWhole("red", Str(RedLimit));
      DigitsLackNames(Str(RedLimit));
      ReplaceAbsent(Str(RedLimit), "green", Str(GreenLimit));
      ReplaceAbsent(Str(RedLimit), "blue", Str(BlueLimit));
    case Green =>
      ContainsFirst("een", "red");
      assert "green"[0] != "red"[0] && "reen"[2] != "red"[2];
      assert !StartsWith("green", "red") && !StartsWith("reen", "red");
      assert !Contains("green", "red");
      ReplaceAbsent("green", "red", Str(RedLimit));
      ReplaceWhole("green", Str(GreenLimit));
      DigitsLackNames(Str(GreenLimit));
      ReplaceAbsent(Str(GreenLimit), "blue", Str(BlueLimit));
    case Blue =>
      ContainsFirst("blue", "red");
      ContainsFirst("blue", "green");
      ReplaceAbsent("blue", "red", Str(RedLimit));
      ReplaceAbsent("blue", "green", Str(GreenLimit));
      ReplaceWhole("blue", Str(BlueLimit));
  }

  lemma LimitedDrawText(d: Draw)
    ensures Limited(DrawText(d)) == LimitedDraw(d)
  {
    var tail := Str(d.count) + [' '] + Name(d.colour);
    assert DrawText(d) == [' '] + tail;
    LimitedSpace(tail);
    LimitedTail(d);
  }

  /** A leading space is left alone. */
  lemma LimitedSpace(b: string)
    ensures Limited([' '] + b) == [' '] + Limited(b)
  {
    var r1 := Replace(b, "red", Str(RedLimit));
    var r2 := Replace(r1, "green", Str(GreenLimit));
    ReplacePrefix([' '], b, "red", Str(RedLimit));
    ReplacePrefix([' '], r1, "green", Str(GreenLimit));
    ReplacePrefix([' '], r2, "blue", Str(BlueLimit));
  }

  lemma LimitedTail(d: Draw)
    ensures Limited(Str(d.count) + [' '] + Name(d.colour)) == Str(d.count) + [' '] + Str(Limit(d.colour))
  {
    LimitedSeparated(Str(d.count), ' ', Name(d.colour));
    LimitedDigits(Str(d.count));
    LimitedName(d.colour);
  }

  /** Replacing the colour names in a joined list replaces them piece by piece. */
  lemma {:induction false} LimitedRound(ds: seq<Draw>)
    ensures Limited(RoundText(ds)) == Join(LimitedDraws(ds), ',')
  {
    if ds == [] {
      LimitedEmpty();
    } else if |ds| == 1 {
      LimitedDrawText(ds[0]);
    } else {
      LimitedRound(ds[1..]);
      LimitedDrawText(ds[0]);
      LimitedSeparated(DrawText(ds[0]), ',', RoundText(ds[1..]));
    }
  }

  lemma {:induction false} LimitedRoundsText(rounds: seq<seq<Draw>>)
    ensures Limited(Join(RoundTexts(rounds), ';')) == Join(LimitedRounds(rounds), ';')
  {
    if rounds == [] {
      LimitedEmpty();
    } else if |rounds| == 1 {
      LimitedRound(rounds[0]);
    } else {
      LimitedRoundsText(rounds[1..]);
      LimitedRound(rounds[0]);
      LimitedSeparated(RoundText(rounds[0]), ';', Join(RoundTexts(rounds[1..]), ';'));
    }
  }

  /** A replaced draw is within its limit exactly when the draw is. */
  lemma DrawWithinText(d: Draw)
    ensures DrawWithin(LimitedDraw(d)) == Ok(DrawPossible(d))
  {
    var n, l := Str(d.count), Str(Limit(d.colour));
    StrLacks(d.count, ' ');
    StrLacks(Limit(d.colour), ' ');
    assert LimitedDraw(d) == [' '] + n + [' '] + l;
    SpacedPieces(n, l);
    ParseStr(d.count);
    ParseStr(Limit(d.colour));
  }

  /** ` <n> <l>` splits on spaces into an empty piece, `n` and `l`. */
  lemma SpacedPieces(n: string, l: string)
    requires ' ' !in n && ' ' !in l
    ensures Split([' '] + n + [' '] + l, ' ') == ["", n, l]
  {
    var e: string := [];
    var parts: seq<string> := [e, n, l];
    assert [e] + [n, l] == parts && [n] + [l] == [n, l];
    JoinCons(e, [n, l], ' ');
    JoinCons(n, [l], ' ');
    assert Join(parts, ' ') == [' '] + n + [' '] + l;
    SplitJoin(parts, ' ');
  }

  lemma {:induction false} DrawsWithinText(ds: seq<Draw>)
    ensures DrawsWithin(LimitedDraws(ds)) == Ok(RoundPossible(ds))
  {
    if ds != [] {
      DrawsWithinText(ds[1..]);
      DrawWithinText(ds[0]);
      assert LimitedDraws(ds)[1..] == LimitedDraws(ds[1..]);
      assert RoundPossible(ds) == (DrawPossible(ds[0]) && RoundPossible(ds[1..])) by {
        assert forall k :: 1 <= k < |ds| ==> ds[k] == ds[1..][k - 1];
      }
    }
  }

  lemma {:induction false} LimitedDrawsLack(ds: seq<Draw>, c: char)
    requires c == ',' || c == ';'
    ensures forall k :: 0 <= k < |LimitedDraws(ds)| ==> c !in LimitedDraws(ds)[k]
  {
    if ds != [] {
      LimitedDrawsLack(ds[1..], c);
      StrLacks(ds[0].count, c);
      StrLacks(Limit(ds[0].colour), c);
      assert forall k :: 1 <= k < |ds| ==> LimitedDraws(ds)[k] == LimitedDraws(ds[1..])[k - 1];
    }
  }

  lemma {:induction false} RoundsWithinText(rounds: seq<seq<Draw>>)
    requires forall i :: 0 <= i < |rounds| ==> rounds[i] != []
    ensures RoundsWithin(LimitedRounds(rounds)) == Ok(forall i :: 0 <= i < |rounds| ==> RoundPossible(rounds[i]))
  {
    if rounds != [] {
      RoundsWithinText(rounds[1..]);
      LimitedDrawsLack(rounds[0], ',');
      SplitJoin(LimitedDraws(rounds[0]), ',');
      DrawsWithinText(rounds[0]);
      assert LimitedRounds(rounds)[1..] == LimitedRounds(rounds[1..]);
      assert forall i :: 1 <= i < |rounds| ==> rounds[i] == rounds[1..][i - 1];
    }
  }

  lemma {:induction false} LimitedRoundsLack(rounds: seq<seq<Draw>>)
    ensures forall i :: 0 <= i < |LimitedRounds(rounds)| ==> ';' !in LimitedRounds(rounds)[i]
  {
    if rounds != [] {
      LimitedRoundsLack(rounds[1..]);
      LimitedDrawsLack(rounds[0], ';');
      JoinAbsent(LimitedDraws(rounds[0]), ',', ';');
      assert forall i :: 1 <= i < |rounds| ==> LimitedRounds(rounds)[i] == LimitedRounds(rounds[1..])[i - 1];
    }
  }

  /** The head of a game line splits off at the colon, and the id is the
      token after `Game`. */
  lemma GameLine(g: Game)
    ensures Split(GameText(g), ':') == ["Game " + Str(g.id), Join(RoundTexts(g.rounds), ';')]
    ensures Split("Game " + Str(g.id), ' ') == ["Game", Str(g.id)]
  {
    var body := Join(RoundTexts(g.rounds), ';');
    RoundsTextLacks(g.rounds, ':');
    var word := "Game";
    assert ':' !in word && ' ' !in word;
    assert GameText(g) == word + [' '] + Str(g.id) + [':'] + body;
    assert "Game " + Str(g.id) == word + [' '] + Str(g.id);
    HeadPieces(word, g.id, body);
  }

  /** The same for any word in front of the id. */
  lemma HeadPieces(word: string, id: nat, body: string)
    requires ':' !in word && ' ' !in word && ':' !in body
    ensures Split(word + [' '] + Str(id) + [':'] + body, ':') == [word + [' '] + Str(id), body]
    ensures Split(word + [' '] + Str(id), ' ') == [word, Str(id)]
  {
    var head := word + [' '] + Str(id);
    StrLacks(id, ':');
    StrLacks(id, ' ');
    SplitConcat(head, body, ':');
    SplitAbsent(head, ':');
    SplitAbsent(body, ':');
    SplitConcat(word, Str(id), ' ');
    SplitAbsent(word, ' ');
    SplitAbsent(Str(id), ' ');
  }

  /** The first pass keeps a game's id exactly when the game is possible. */
  lemma PossibleIdText(g: Game)
    requires WellFormed(g)
    ensures PossibleId(GameText(g)) == Ok(if Possible(g) then Some(g.id) else None)
  {
    GameLine(g);
    LimitedRoundsText(g.rounds);
    LimitedRoundsLack(g.rounds);
    SplitJoin(LimitedRounds(g.rounds), ';');
    RoundsWithinText(g.rounds);
    ParseStr(g.id);
  }

  // ---------------------------------------------------------------------
  // The second pass on the puzzle text

  /** A draw once the spaces were removed: `<count><colour>`. */
  function RollText(d: Draw): string
  {
    Str(d.count) + Name(d.colour)
  }

  function RollTexts(ds: seq<Draw>): (r: seq<string>)
    ensures |r| == |ds|
  {
    if ds == [] then [] else [RollText(ds[0])] + RollTexts(ds[1..])
  }

  function RollRounds(rounds: seq<seq<Draw>>): (r: seq<string>)
    ensures |r| == |rounds|
  {
    if rounds == [] then [] else [Join(RollTexts(rounds[0]), ',')] + RollRounds(rounds[1..])
  }

  function Despace(s: string): string
  {
    Replace(s, " ", "")
  }

  lemma DespaceConcat(a: string, b: string)
    ensures Despace(a + b) == Despace(a) + Despace(b)
  {
    ReplaceCharConcat(a, b, ' ', "");
  }

  /** Text without a space is left alone. */
  lemma DespaceNone(s: string)
    requires ' ' !in s
    ensures Despace(s) == s
  {
    ContainsFirst(s, " ");
    ReplaceAbsent(s, " ", "");
  }

  lemma DespaceDraw(d: Draw)
    ensures Despace(DrawText(d)) == RollText(d)
  {
    var n, name := Str(d.count), Name(d.colour);
    StrLacks(d.count, ' ');
    assert DrawText(d) == [' '] + n + [' '] + name;
    DropSeparators(n, name, ' ');
  }

  /** `[c] + a + [c] + b` without its `c`s, when `a` and `b` hold none. */
  lemma DropSeparators(a: string, b: string, c: char)
    requires c !in a && c !in b
    ensures Replace([c] + a + [c] + b, [c], "") == a + b
  {
    var x, y := [c] + a, [c] + b;
    assert [c] + a + [c] + b == x + y;
    ReplaceCharConcat(x, y, c, "");
    ReplaceCharConcat([c], a, c, "");
    ReplaceCharConcat([c], b, c, "");
    ReplaceWhole([c], "");
    ContainsFirst(a, [c]);
    ContainsFirst(b, [c]);
    ReplaceAbsent(a, [c], "");
    ReplaceAbsent(b, [c], "");
    assert Replace(x, [c], "") == a && Replace(y, [c], "") == b;
  }

  /** Removing the spaces from a joined list removes them piece by piece. */
  lemma DespaceSeparated(a: string, c: char, b: string)
    requires c != ' '
    ensures Despace(a + [c] + b) == Despace(a) + [c] + Despace(b)
  {
    DespaceConcat(a + [c], b);
    DespaceConcat(a, [c]);
    DespaceNone([c]);
  }

  lemma {:induction false} DespaceRound(ds: seq<Draw>)
    ensures Despace(RoundText(ds)) == Join(RollTexts(ds), ',')
  {
    if ds == [] {
      DespaceNone([]);
    } else if |ds| == 1 {
      DespaceDraw(ds[0]);
    } else {
      DespaceRound(ds[1..]);
      DespaceDraw(ds[0]);
      DespaceSeparated(DrawText(ds[0]), ',', RoundText(ds[1..]));
    }
  }

  lemma {:induction false} DespaceRounds(rounds: seq<seq<Draw>>)
    ensures Despace(Join(RoundTexts(rounds), ';')) == Join(RollRounds(rounds), ';')
  {
    if rounds == [] {
      DespaceNone([]);
    } else if |rounds| == 1 {
      DespaceRound(rounds[0]);
    } else {
      DespaceRounds(rounds[1..]);
      DespaceRound(rounds[0]);
      DespaceSeparated(RoundText(rounds[0]), ';', Join(RoundTexts(rounds[1..]), ';'));
    }
  }

  lemma {:induction false} RollTextsLack(ds: seq<Draw>, c: char)
    requires Punctuation(c)
    ensures forall k :: 0 <= k < |RollTexts(ds)| ==> c !in RollTexts(ds)[k]
  {
    if ds != [] {
      RollTextsLack(ds[1..], c);
      RollTextLacks(ds[0], c);
      assert forall k :: 1 <= k < |ds| ==> RollTexts(ds)[k] == RollTexts(ds[1..])[k - 1];
    }
  }

  lemma RollTextLacks(d: Draw, c: char)
    requires Punctuation(c)
    ensures c !in RollText(d)
  {
    StrLacks(d.count, c);
    var name := Name(d.colour);
    assert c !in name;
  }

  lemma {:induction false} RollRoundsLack(rounds: seq<seq<Draw>>, c: char)
    requires c == ':' || c == ';'
    ensures forall i :: 0 <= i < |RollRounds(rounds)| ==> c !in RollRounds(rounds)[i]
  {
    if rounds != [] {
      RollRoundsLack(rounds[1..], c);
      RollTextsLack(rounds[0], c);
      JoinAbsent(RollTexts(rounds[0]), ',', c);
      assert forall i :: 1 <= i < |rounds| ==> RollRounds(rounds)[i] == RollRounds(rounds[1..])[i - 1];
    }
  }

  /** `head + [c] + rest` without its `c`s, when `head` holds none. */
  lemma DropAfter(head: string, rest: string, c: char)
    requires c !in head
    ensures Replace(head + [c] + rest, [c], "") == head + Replace(rest, [c], "")
  {
    var x := head + [c];
    ReplaceCharConcat(x, rest, c, "");
    ReplaceCharConcat(head, [c], c, "");
    ReplaceWhole([c], "");
    ContainsFirst(head, [c]);
    ReplaceAbsent(head, [c], "");
    assert Replace(x, [c], "") == head;
  }

  /** A game line without its spaces. */
  lemma DespaceGameText(g: Game)
    ensures Despace(GameText(g)) == "Game" + Str(g.id) + [':'] + Join(RollRounds(g.rounds), ';')
  {
    var body := Join(RoundTexts(g.rounds), ';');
    var tail := Str(g.id) + [':'] + body;
    GameTextParts(g);
    DropAfter("Game", tail, ' ');
    DespaceTail(g);
    var rest := Join(RollRounds(g.rounds), ';');
    assert "Game" + (Str(g.id) + [':'] + rest) == "Game" + Str(g.id) + [':'] + rest;
  }

  lemma GameTextParts(g: Game)
    ensures GameText(g) == "Game" + [' '] + (Str(g.id) + [':'] + Join(RoundTexts(g.rounds), ';'))
  {
  }

  lemma DespaceTail(g: Game)
    ensures Despace(Str(g.id) + [':'] + Join(RoundTexts(g.rounds), ';')) == Str(g.id) + [':'] + Join(RollRounds(g.rounds), ';')
  {
    DespaceSeparated(Str(g.id), ':', Join(RoundTexts(g.rounds), ';'));
    StrLacks(g.id, ' ');
    DespaceNone(Str(g.id));
    DespaceRounds(g.rounds);
  }

  /** A game line without its spaces, split at the colon. */
  lemma DespaceGame(g: Game)
    ensures Split(Despace(GameText(g)), ':') == ["Game" + Str(g.id), Join(RollRounds(g.rounds), ';')]
  {
    DespaceGameText(g);
    var head, rest := "Game" + Str(g.id), Join(RollRounds(g.rounds), ';');
    StrLacks(g.id, ':');
    RollRoundsLack(g.rounds, ':');
    JoinAbsent(RollRounds(g.rounds), ';', ':');
    SplitConcat(head, rest, ':');
    SplitAbsent(head, ':');
    SplitAbsent(rest, ':');
  }

  /** No colour name starts inside another, and none holds a digit. */
  lemma NamesApart()
    ensures !Contains("green", "red") && !Contains("blue", "red") && !Contains("blue", "green")
  {
    ContainsFirst("een", "red");
    assert "green"[0] != "red"[0] && "reen"[2] != "red"[2];
    assert !StartsWith("green", "red") && !StartsWith("reen", "red");
    ContainsFirst("blue", "red");
    ContainsFirst("blue", "green");
  }

  /** A number left over once every colour was read. */
  lemma {:induction false} RollDiceDigits(s: string, k: nat, m: Minimums)
    requires IsDigits(s) && Tracks(m) && k <= |Colours|
    ensures RollDice(s, k, m) == Ok(m)
    decreases |Colours| - k
  {
    if k < |Colours| {
      DigitsLackNames(s);
      RollDiceDigits(s, k + 1, m);
    }
  }

  /** A draw of colour `name` read out of `Str(n) + name`. */
  lemma RollDiceName(n: nat, k: nat, m: Minimums)
    requires Tracks(m) && k < |Colours|
    ensures RollDice(Str(n) + Colours[k], k, m) == RollDice(Str(n), k + 1, Raised(m, Colours[k], n))
  {
    var name := Colours[k];
    ContainsPrefix(Str(n), name, name);
    ReplacePrefix(Str(n), name, name, "");
    ReplaceWhole(name, "");
    assert Str(n) + [] == Str(n);
    ParseStr(n);
  }

  /** Passing over the colour `Colours[k]`, which the roll does not name. */
  lemma RollDiceSkip(n: nat, name: string, k: nat, m: Minimums)
    requires Tracks(m) && k < |Colours| && Colours[k] != [] && !Contains(name, Colours[k])
    ensures RollDice(Str(n) + name, k, m) == RollDice(Str(n) + name, k + 1, m)
  {
    ContainsFirst(Str(n), Colours[k]);
    ContainsPrefix(Str(n), name, Colours[k]);
  }

  /** One draw raises the minimum of its colour to its count. */
  lemma RollDiceText(d: Draw, m: Minimums)
    requires Tracks(m)
    ensures RollDice(RollText(d), 0, m) == Ok(Raised(m, Name(d.colour), d.count))
  {
    var k := match d.colour case Red => 0 case Green => 1 case Blue => 2;
    NamesApart();
    assert Colours[k] == Name(d.colour);
    RollDiceColour(d.count, k, m);
  }

  /** The `k`-th colour is looked for after the ones before it, none of
      which it contains. */
  lemma RollDiceColour(n: nat, k: nat, m: Minimums)
    requires Tracks(m) && k < |Colours|
    requires forall j :: 0 <= j < k ==> !Contains(Colours[k], Colours[j])
    ensures RollDice(Str(n) + Colours[k], 0, m) == Ok(Raised(m, Colours[k], n))
  {
    RollDiceSkips(n, k, 0, m);
    RollDiceName(n, k, m);
    RollDiceDigits(Str(n), k + 1, Raised(m, Colours[k], n));
  }

  lemma {:induction false} RollDiceSkips(n: nat, k: nat, j: nat, m: Minimums)
    requires Tracks(m) && j <= k < |Colours|
    requires forall i :: j <= i < k ==> !Contains(Colours[k], Colours[i])
    ensures RollDice(Str(n) + Colours[k], j, m) == RollDice(Str(n) + Colours[k], k, m)
    decreases k - j
  {
    if j < k {
      RollDiceSkip(n, Colours[k], j, m);
      RollDiceSkips(n, k, j + 1, m);
    }
  }

  /** The minimums after the draws `ds`, one after the other. */
  function RaisedBy(m: Minimums, ds: seq<Draw>): (r: Minimums)
    requires Tracks(m)
    ensures r.Keys == m.Keys
  {
    if ds == [] then m else RaisedBy(Raised(m, Name(ds[0].colour), ds[0].count), ds[1..])
  }

  function RaisedByAll(m: Minimums, rounds: seq<seq<Draw>>): (r: Minimums)
    requires Tracks(m)
    ensures r.Keys == m.Keys
  {
    if rounds == [] then m else RaisedByAll(RaisedBy(m, rounds[0]), rounds[1..])
  }

  /** After the draws `ds` each colour's minimum is the larger of where it
      stood and the largest count of that colour among `ds`. */
  lemma {:induction false} RaisedByMost(m: Minimums, ds: seq<Draw>, c: Colour)
    requires Tracks(m)
    ensures RaisedBy(m, ds)[Name(c)] == Max(m[Name(c)], MostIn(ds, c))
  {
    if ds != [] {
      var m' := Raised(m, Name(ds[0].colour), ds[0].count);
      RaisedByMost(m', ds[1..], c);
      assert m'[Name(c)] == Max(m[Name(c)], if ds[0].colour == c then ds[0].count else 0);
    }
  }

  lemma {:induction false} RaisedByAllMost(m: Minimums, rounds: seq<seq<Draw>>, c: Colour)
    requires Tracks(m)
    ensures RaisedByAll(m, rounds)[Name(c)] == Max(m[Name(c)], Most(rounds, c))
  {
    if rounds != [] {
      RaisedByMost(m, rounds[0], c);
      RaisedByAllMost(RaisedBy(m, rounds[0]), rounds[1..], c);
    }
  }

  lemma {:induction false} RollsText(ds: seq<Draw>, m: Minimums)
    requires Tracks(m)
    ensures RollsMinimums(RollTexts(ds), m) == Ok(RaisedBy(m, ds))
  {
    if ds != [] {
      RollDiceText(ds[0], m);
      RollsText(ds[1..], Raised(m, Name(ds[0].colour), ds[0].count));
      assert RollTexts(ds)[1..] == RollTexts(ds[1..]);
    }
  }

  lemma {:induction false} RoundsText(rounds: seq<seq<Draw>>, m: Minimums)
    requires Tracks(m)
    requires forall i :: 0 <= i < |rounds| ==> rounds[i] != []
    ensures RoundsMinimums(RollRounds(rounds), m) == Ok(RaisedByAll(m, rounds))
  {
    if rounds != [] {
      RollTextsLack(rounds[0], ',');
      SplitJoin(RollTexts(rounds[0]), ',');
      RollsText(rounds[0], m);
      RoundsText(rounds[1..], RaisedBy(m, rounds[0]));
      assert RollRounds(rounds)[1..] == RollRounds(rounds[1..]);
    }
  }

  /** The second pass finds, per colour, the largest count the game draws. */
  lemma GameMinimumsText(g: Game)
    requires WellFormed(g)
    ensures GameMinimums(GameText(g)).Ok?
    ensures forall c :: GameMinimums(GameText(g)).value[Name(c)] == Most(g.rounds, c)
    ensures Power(GameMinimums(GameText(g)).value) == FewestPower(g)
  {
    DespaceGame(g);
    RollRoundsLack(g.rounds, ';');
    SplitJoin(RollRounds(g.rounds), ';');
    RoundsText(g.rounds, NoCubes);
    forall c ensures RaisedByAll(NoCubes, g.rounds)[Name(c)] == Most(g.rounds, c)
    {
      RaisedByAllMost(NoCubes, g.rounds, c);
    }
    assert Power(RaisedByAll(NoCubes, g.rounds)) == FewestPower(g) by {
      assert "red" == Name(Red) && "green" == Name(Green) && "blue" == Name(Blue);
    }
  }

  // ---------------------------------------------------------------------
  // Whole puzzle inputs

  /** The ids of the possible games, in input order. */
  function PossibleIdsOf(games: seq<Game>): seq<nat>
  {
    if games == [] then [] else (if Possible(games[0]) then [games[0].id] else []) + PossibleIdsOf(games[1..])
  }

  /** The sum of the powers of the fewest cubes of each game. */
  function TotalPower(games: seq<Game>): nat
  {
    if games == [] then 0 else FewestPower(games[0]) + TotalPower(games[1..])
  }

  lemma {:induction false} GameTextsAt(games: seq<Game>, k: nat)
    requires k < |games|
    ensures GameTexts(games)[k] == GameText(games[k])
  {
    if k > 0 {
      GameTextsAt(games[1..], k - 1);
    }
  }

  lemma GameTextsLines(games: seq<Game>)
    ensures SplitLines(Unlines(GameTexts(games))) == GameTexts(games)
  {
    forall k | 0 <= k < |games| ensures '\n' !in GameTexts(games)[k]
    {
      GameTextsAt(games, k);
      GameTextLacksBreak(games[k]);
    }
    SplitLinesUnlines(GameTexts(games));
  }

  lemma {:induction false} PossibleIdsText(games: seq<Game>)
    requires forall k :: 0 <= k < |games| ==> WellFormed(games[k])
    ensures PossibleIds(GameTexts(games)) == Ok(PossibleIdsOf(games))
  {
    if games != [] {
      PossibleIdText(games[0]);
      PossibleIdsText(games[1..]);
      assert GameTexts(games)[1..] == GameTexts(games[1..]);
    }
  }

  lemma PowersText(games: seq<Game>)
    requires forall k :: 0 <= k < |games| ==> WellFormed(games[k])
    ensures Powers(GameTexts(games)) == Ok(TotalPower(games))
  {
    var lines := GameTexts(games);
    forall k | 0 <= k < |games|
      ensures GameMinimums(lines[k]).Ok? && Power(GameMinimums(lines[k]).value) == FewestPower(games[k])
    {
      GameTextsAt(games, k);
      GamePower(games[k]);
    }
    PowersOf(lines, games);
  }

  /** Lines whose powers are those of `games` sum to their total. */
  lemma {:induction false} PowersOf(lines: seq<string>, games: seq<Game>)
    requires |lines| == |games|
    requires forall k :: 0 <= k < |lines| ==>
      GameMinimums(lines[k]).Ok? && Power(GameMinimums(lines[k]).value) == FewestPower(games[k])
    ensures Powers(lines) == Ok(TotalPower(games))
  {
    if lines != [] {
      assert forall k :: 0 <= k < |lines| - 1 ==> lines[1..][k] == lines[k + 1] && games[1..][k] == games[k + 1];
      PowersOf(lines[1..], games[1..]);
      PowersCons(lines, FewestPower(games[0]));
      PlusTotal(games, Powers(lines[1..]));
    }
  }

  lemma PowersCons(lines: seq<string>, p: nat)
    requires lines != [] && GameMinimums(lines[0]).Ok? && Power(GameMinimums(lines[0]).value) == p
    ensures Powers(lines) == Plus(p, Powers(lines[1..]))
  {
  }

  /** The first game's power added to the total of the others. */
  lemma PlusTotal(games: seq<Game>, rest: Outcome<nat>)
    requires games != [] && rest == Ok(TotalPower(games[1..]))
    ensures Plus(FewestPower(games[0]), rest) == Ok(TotalPower(games))
  {
  }

  lemma GamePower(g: Game)
    requires WellFormed(g)
    ensures GameMinimums(GameText(g)).Ok? && Power(GameMinimums(GameText(g)).value) == FewestPower(g)
  {
    GameMinimumsText(g);
  }

  /** On the text of well-formed games the first pass logs the sum of the
      ids of the possible games, and the solver returns the sum of the
      powers of their fewest cubes. */
  lemma PuzzleText(games: seq<Game>)
    requires forall k :: 0 <= k < |games| ==> WellFormed(games[k])
    ensures PossibleIdSum(Unlines(GameTexts(games))) == Ok(Sum(PossibleIdsOf(games)))
    ensures CubeOutcome(Unlines(GameTexts(games))) == Ok(TotalPower(games))
  {
    GameTextsLines(games);
    PossibleIdsText(games);
    PowersText(games);
  }

  /** The possible ids are exactly the ids of the possible games. */
  lemma {:induction false} PossibleIdsOfGames(games: seq<Game>, x: nat)
    ensures x in PossibleIdsOf(games) <==> exists k :: 0 <= k < |games| && games[k].id == x && Possible(games[k])
  {
    if games != [] {
      PossibleIdsOfGames(games[1..], x);
      if x in PossibleIdsOf(games[1..]) {
        var k :| 0 <= k < |games[1..]| && games[1..][k].id == x && Possible(games[1..][k]);
        assert games[k + 1] == games[1..][k];
      }
      if exists k :: 0 <= k < |games| && games[k].id == x && Possible(games[k]) {
        var k :| 0 <= k < |games| && games[k].id == x && Possible(games[k]);
        if k > 0 {
          assert games[1..][k - 1] == games[k];
        }
      }
    }
  }
}
