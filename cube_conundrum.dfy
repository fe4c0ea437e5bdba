/** Cube Conundrum: `adventures/d2y2023.py`.

    Each line is a game `Game <id>: <draw>, <draw>; <draw>; ...`, a draw
    being ` <count> <colour>`.  The solver makes two passes over the lines.
    The first one replaces every colour name by the number of cubes of that
    colour in the bag and checks every draw against it, collecting the ids of
    the possible games; their sum is only logged.  The second one removes
    the spaces and takes, per colour, the largest count drawn; the result is
    the sum over the games of the product of the three largest counts.
 */
module CubeConundrum {
  import opened Prelude
  import opened Text

  /** The cubes of each colour in the bag (lines 30-32). */
  const RedLimit: nat := 12
  const GreenLimit: nat := 13
  const BlueLimit: nat := 14

  // ---------------------------------------------------------------------
  // First pass: which games are possible

  /** Lines 40-43: every colour name becomes its limit. */
  function Limited(s: string): string
  {
    Replace(Replace(Replace(s, "red", Str(RedLimit)), "green", Str(GreenLimit)), "blue", Str(BlueLimit))
  }

  /** Line 37, `game.split(":")[0].split(" ")[1]`. */
  function GameId(game: string): Outcome<string>
  {
    var pieces := Split(Split(game, ':')[0], ' ');
    if |pieces| < 2 then Raise(IndexError) else Ok(pieces[1])
  }

  /** Lines 39-45: the rounds after the colours were replaced by their limits. */
  function GameRounds(game: string): Outcome<seq<string>>
  {
    var parts := Split(game, ':');
    if |parts| < 2 then Raise(IndexError) else Ok(Split(Limited(parts[1]), ';'))
  }

  /** Lines 52-53 on one draw ` <count> <limit>`: whether the count is within
      the limit. */
  function DrawWithin(draw: string): Outcome<bool>
  {
    var pieces := Split(draw, ' ');
    if |pieces| != 3 then Raise(ValueError)
    else match ParseInt(pieces[2])
      case None => Raise(ValueError)
      case Some(most) =>
        match ParseInt(pieces[1])
        case None => Raise(ValueError)
        case Some(count) => Ok(!(most < count))
  }

  /** The draws of a round, checked in order up to the first one over its limit. */
  function DrawsWithin(draws: seq<string>): Outcome<bool>
  {
    if draws == [] then Ok(true)
    else match DrawWithin(draws[0])
      case Raise(e) => Raise(e)
      case Ok(within) => if within then DrawsWithin(draws[1..]) else Ok(false)
  }

  /** The rounds of a game, checked in order up to the first draw over its limit. */
  function RoundsWithin(rounds: seq<string>): Outcome<bool>
  {
    if rounds == [] then Ok(true)
    else match DrawsWithin(Split(rounds[0], ','))
      case Raise(e) => Raise(e)
      case Ok(within) => if within then RoundsWithin(rounds[1..]) else Ok(false)
  }

  /** What one game adds to `valid_games`: its id when every draw is within
      its limit, nothing otherwise.  The id is parsed only for a possible game. */
  function PossibleId(game: string): Outcome<Option<nat>>
  {
    match GameId(game)
    case Raise(e) => Raise(e)
    case Ok(id) =>
      match GameRounds(game)
      case Raise(e) => Raise(e)
      case Ok(rounds) =>
        match RoundsWithin(rounds)
        case Raise(e) => Raise(e)
        case Ok(valid) =>
          if !valid then Ok(None)
          else match ParseInt(id)
            case None => Raise(ValueError)
            case Some(n) => Ok(Some(n))
  }

  function Ids(id: Option<nat>): seq<nat>
  {
    if id.Some? then [id.value] else []
  }

  /** The `valid_games` list for the given lines, or the first exception. */
  function PossibleIds(lines: seq<string>): Outcome<seq<nat>>
  {
    if lines == [] then Ok([])
    else match PossibleId(lines[0])
      case Raise(e) => Raise(e)
      case Ok(id) => After(Ids(id), PossibleIds(lines[1..]))
  }

  /** `sum(valid_games)`, the value the first pass logs. */
  function PossibleIdSum(input: string): Outcome<nat>
  {
    match PossibleIds(SplitLines(input))
    case Raise(e) => Raise(e)
    case Ok(ids) => Ok(Sum(ids))
  }

  lemma DrawsStep(draws: seq<string>, j: nat)
    requires j < |draws|
    ensures DrawsWithin(draws[j..]) ==
      match DrawWithin(draws[j])
      case Raise(e) => Raise(e)
      case Ok(within) => if within then DrawsWithin(draws[j + 1..]) else Ok(false)
  {
    assert draws[j..][0] == draws[j] && draws[j..][1..] == draws[j + 1..];
  }

  lemma RoundsStep(rounds: seq<string>, i: nat)
    requires i < |rounds|
    ensures RoundsWithin(rounds[i..]) ==
      match DrawsWithin(Split(rounds[i], ','))
      case Raise(e) => Raise(e)
      case Ok(within) => if within then RoundsWithin(rounds[i + 1..]) else Ok(false)
  {
    assert rounds[i..][0] == rounds[i] && rounds[i..][1..] == rounds[i + 1..];
  }

  /** Lines 37-60 on one game: what it adds to `valid_games`. */
  method CheckGame(game: string) returns (r: Outcome<Option<nat>>)
    ensures r == PossibleId(game)
  {
    var parts := Split(game, ':');
    var idPieces := Split(parts[0], ' ');
    if |idPieces| < 2 {
      return Raise(IndexError);
    }
    var gameId := idPieces[1];
    if |parts| < 2 {
      return Raise(IndexError);
    }
    var rounds := Split(Limited(parts[1]), ';');
    var valid := true;
    for i := 0 to |rounds|
      invariant valid
      invariant RoundsWithin(rounds) == RoundsWithin(rounds[i..])
    {
      RoundsStep(rounds, i);
      var draws := Split(rounds[i], ',');
      for j := 0 to |draws|
        invariant valid
        invariant DrawsWithin(draws) == DrawsWithin(draws[j..])
      {
        DrawsStep(draws, j);
        var pieces := Split(draws[j], ' ');
        if |pieces| != 3 {
          return Raise(ValueError);
        }
        var most := ParseInt(pieces[2]);
        if most.None? {
          return Raise(ValueError);
        }
        var count := ParseInt(pieces[1]);
        if count.None? {
          return Raise(ValueError);
        }
        if most.value < count.value {
          valid := false;
          break;
        }
      }
      if !valid {
        break;
      }
      assert draws[|draws|..] == [];
    }
    if valid {
      assert rounds[|rounds|..] == [];
      var id := ParseInt(gameId);
      if id.None? {
        return Raise(ValueError);
      }
      return Ok(Some(id.value));
    }
    return Ok(None);
  }

  /** Lines 34-62: the first pass, whose sum is only logged. */
  method PossibleGameSum(input: string) returns (r: Outcome<nat>)
    ensures r == PossibleIdSum(input)
  {
    var validGames: seq<nat> := [];
    var lines := SplitLines(input);
    AfterNothing(PossibleIds(lines));
    for k := 0 to |lines|
      invariant PossibleIds(lines) == After(validGames, PossibleIds(lines[k..]))
    {
      PossibleIdsStep(lines, k, validGames);
      var id := CheckGame(lines[k]);
      if id.Raise? {
        return Raise(id.error);
      }
      ghost var before := validGames;
      if id.value.Some? {
        validGames := validGames + [id.value.value];
      }
      assert validGames == before + Ids(id.value);
    }
    PossibleIdsDone(lines, validGames);
    return Ok(Sum(validGames));
  }

  lemma PossibleIdsStep(lines: seq<string>, k: nat, done: seq<nat>)
    requires k < |lines|
    ensures PossibleId(lines[k]).Raise? ==>
      After(done, PossibleIds(lines[k..])) == Raise(PossibleId(lines[k]).error)
    ensures PossibleId(lines[k]).Ok? ==>
      After(done, PossibleIds(lines[k..])) == After(done + Ids(PossibleId(lines[k]).value), PossibleIds(lines[k + 1..]))
  {
    assert lines[k..][0] == lines[k] && lines[k..][1..] == lines[k + 1..];
    if PossibleId(lines[k]).Ok? {
      AfterAppend(done, Ids(PossibleId(lines[k]).value), PossibleIds(lines[k + 1..]));
    }
  }

  lemma PossibleIdsDone(lines: seq<string>, done: seq<nat>)
    ensures After(done, PossibleIds(lines[|lines|..])) == Ok(done)
  {
    assert lines[|lines|..] == [];
    assert done + [] == done;
  }

  /** Collecting `more` and then `rest`. */
  lemma AfterAppend<T>(done: seq<T>, more: seq<T>, rest: Outcome<seq<T>>)
    ensures After(done, After(more, rest)) == After(done + more, rest)
  {
    if rest.Ok? {
      assert done + (more + rest.value) == done + more + rest.value;
    }
  }

  // ---------------------------------------------------------------------
  // Second pass: the fewest cubes of each colour

  /** The keys of `minimums`, in insertion order. */
  const Colours: seq<string> := ["red", "green", "blue"]

  type Minimums = map<string, nat>

  /** Line 66: no cube of any colour seen yet. */
  const NoCubes: Minimums := map["red" := 0, "green" := 0, "blue" := 0]

  predicate Tracks(m: Minimums)
  {
    "red" in m && "green" in m && "blue" in m
  }

  /** Where `minimums` stands after a roll, as Python compares and assigns. */
  function Raised(m: Minimums, dice: string, value: nat): (r: Minimums)
    requires dice in m
    ensures r.Keys == m.Keys
  {
    if value > m[dice] then m[dice := value] else m
  }

  /** Lines 74-79 on one roll, from the `k`-th colour on: each colour named in
      the roll is removed from it, the rest is read as a number, and that
      colour's minimum rises to it. */
  function RollDice(roll: string, k: nat, m: Minimums): (r: Outcome<Minimums>)
    requires Tracks(m) && k <= |Colours|
    ensures r.Ok? ==> r.value.Keys == m.Keys
    decreases |Colours| - k
  {
    if k == |Colours| then Ok(m)
    else
      var dice := Colours[k];
      if Contains(roll, dice) then
        var rest := Replace(roll, dice, "");
        match ParseInt(rest)
        case None => Raise(ValueError)
        case Some(value) => RollDice(rest, k + 1, Raised(m, dice, value))
      else RollDice(roll, k + 1, m)
  }

  /** The rolls of a round, in order. */
  function RollsMinimums(rolls: seq<string>, m: Minimums): (r: Outcome<Minimums>)
    requires Tracks(m)
    ensures r.Ok? ==> r.value.Keys == m.Keys
  {
    if rolls == [] then Ok(m)
    else match RollDice(rolls[0], 0, m)
      case Raise(e) => Raise(e)
      case Ok(m') => RollsMinimums(rolls[1..], m')
  }

  /** The rounds of a game, in order. */
  function RoundsMinimums(rounds: seq<string>, m: Minimums): (r: Outcome<Minimums>)
    requires Tracks(m)
    ensures r.Ok? ==> r.value.Keys == m.Keys
  {
    if rounds == [] then Ok(m)
    else match RollsMinimums(Split(rounds[0], ','), m)
      case Raise(e) => Raise(e)
      case Ok(m') => RoundsMinimums(rounds[1..], m')
  }

  /** Lines 66-79 on one game: the fewest cubes of each colour. */
  function GameMinimums(game: string): (r: Outcome<Minimums>)
    ensures r.Ok? ==> r.value.Keys == NoCubes.Keys
  {
    var parts := Split(Replace(game, " ", ""), ':');
    if |parts| < 2 then Raise(IndexError) else RoundsMinimums(Split(parts[1], ';'), NoCubes)
  }

  /** Line 81: the power of a set of cubes. */
  function Power(m: Minimums): nat
    requires Tracks(m)
  {
    m["red"] * m["green"] * m["blue"]
  }

  /** `n` added to the sum `rest`, or the exception `rest` ends in. */
  function Plus(n: nat, rest: Outcome<nat>): Outcome<nat>
  {
    match rest
    case Raise(e) => Raise(e)
    case Ok(s) => Ok(n + s)
  }

  /** The sum of the powers of the given games, or the first exception. */
  function Powers(lines: seq<string>): Outcome<nat>
  {
    if lines == [] then Ok(0)
    else match GameMinimums(lines[0])
      case Raise(e) => Raise(e)
      case Ok(m) => Plus(Power(m), Powers(lines[1..]))
  }

  method CheckRoll(roll: string, m: Minimums) returns (r: Outcome<Minimums>)
    requires Tracks(m)
    ensures r == RollDice(roll, 0, m)
  {
    var minimums: Minimums := m;
    var current := roll;
    for k := 0 to |Colours|
      invariant Tracks(minimums)
      invariant RollDice(roll, 0, m) == RollDice(current, k, minimums)
    {
      var dice := Colours[k];
      if Contains(current, dice) {
        current := Replace(current, dice, "");
        var value := ParseInt(current);
        if value.None? {
          return Raise(ValueError);
        }
        if value.value > minimums[dice] {
          minimums := minimums[dice := value.value];
        }
      }
    }
    return Ok(minimums);
  }

  lemma RollsMinimumsStep(rolls: seq<string>, j: nat, m: Minimums)
    requires j < |rolls| && Tracks(m)
    ensures RollsMinimums(rolls[j..], m) ==
      match RollDice(rolls[j], 0, m)
      case Raise(e) => Raise(e)
      case Ok(m') => RollsMinimums(rolls[j + 1..], m')
  {
    assert rolls[j..][0] == rolls[j] && rolls[j..][1..] == rolls[j + 1..];
  }

  lemma RoundsMinimumsStep(rounds: seq<string>, i: nat, m: Minimums)
    requires i < |rounds| && Tracks(m)
    ensures RoundsMinimums(rounds[i..], m) ==
      match RollsMinimums(Split(rounds[i], ','), m)
      case Raise(e) => Raise(e)
      case Ok(m') => RoundsMinimums(rounds[i + 1..], m')
  {
    assert rounds[i..][0] == rounds[i] && rounds[i..][1..] == rounds[i + 1..];
  }

  lemma PowersRaise(lines: seq<string>, k: nat, score: nat)
    requires k < |lines| && GameMinimums(lines[k]).Raise?
    ensures Plus(score, Powers(lines[k..])) == Raise(GameMinimums(lines[k]).error)
  {
    assert lines[k..][0] == lines[k];
  }

  lemma PowersNext(lines: seq<string>, k: nat, score: nat, next: nat)
    requires k < |lines| && GameMinimums(lines[k]).Ok?
    requires next == score + Power(GameMinimums(lines[k]).value)
    ensures Plus(score, Powers(lines[k..])) == Plus(next, Powers(lines[k + 1..]))
  {
    var t := lines[k..];
    assert t[0] == lines[k] && t[1..] == lines[k + 1..];
    var p := Power(GameMinimums(lines[k]).value);
    assert Powers(t) == Plus(p, Powers(t[1..]));
    PlusPlus(score, p, Powers(t[1..]));
  }

  /** Lines 66-79 on one game. */
  method FewestCubes(game: string) returns (r: Outcome<Minimums>)
    ensures r == GameMinimums(game)
  {
    var minimums := NoCubes;
    var spaceless := Replace(game, " ", "");
    var parts := Split(spaceless, ':');
    if |parts| < 2 {
      return Raise(IndexError);
    }
    var rounds := Split(parts[1], ';');
    for i := 0 to |rounds|
      invariant Tracks(minimums)
      invariant GameMinimums(game) == RoundsMinimums(rounds[i..], minimums)
    {
      RoundsMinimumsStep(rounds, i, minimums);
      var rolls := Split(rounds[i], ',');
      ghost var start := minimums;
      for j := 0 to |rolls|
        invariant Tracks(minimums)
        invariant RollsMinimums(rolls, start) == RollsMinimums(rolls[j..], minimums)
      {
        RollsMinimumsStep(rolls, j, minimums);
        var next := CheckRoll(rolls[j], minimums);
        if next.Raise? {
          return Raise(next.error);
        }
        minimums := next.value;
      }
      assert rolls[|rolls|..] == [];
    }
    assert rounds[|rounds|..] == [];
    return Ok(minimums);
  }

  /** The sum of the powers the second pass returns. */
  function PowerSumOf(input: string): Outcome<nat>
  {
    Powers(SplitLines(input))
  }

  /** Lines 64-84: the second pass. */
  method PowerSum(input: string) returns (r: Outcome<nat>)
    ensures r == PowerSumOf(input)
  {
    var score: nat := 0;
    var lines := SplitLines(input);
    for k := 0 to |lines|
      invariant Powers(lines) == Plus(score, Powers(lines[k..]))
    {
      var minimums := FewestCubes(lines[k]);
      if minimums.Raise? {
        PowersRaise(lines, k, score);
        return Raise(minimums.error);
      }
      var next := score + Power(minimums.value);
      PowersNext(lines, k, score, next);
      score := next;
    }
    assert lines[|lines|..] == [];
    assert Powers(lines[|lines|..]) == Ok(0);
    return Ok(score);
  }

  /** `m'` tracks the same colours as `m`, none of them lower. */
  predicate AtLeast(m': Minimums, m: Minimums)
  {
    m'.Keys == m.Keys && forall c :: c in m ==> m'[c] >= m[c]
  }

  /** A roll never lowers a minimum. */
  lemma {:induction false} RollDiceRaises(roll: string, k: nat, m: Minimums)
    requires Tracks(m) && k <= |Colours|
    ensures RollDice(roll, k, m).Ok? ==> AtLeast(RollDice(roll, k, m).value, m)
    decreases |Colours| - k
  {
    if k < |Colours| {
      var dice := Colours[k];
      if Contains(roll, dice) {
        var rest := Replace(roll, dice, "");
        if ParseInt(rest).Some? {
          RollDiceRaises(rest, k + 1, Raised(m, dice, ParseInt(rest).value));
        }
      } else {
        RollDiceRaises(roll, k + 1, m);
      }
    }
  }

  lemma {:induction false} RollsRaise(rolls: seq<string>, m: Minimums)
    requires Tracks(m)
    ensures RollsMinimums(rolls, m).Ok? ==> AtLeast(RollsMinimums(rolls, m).value, m)
  {
    if rolls != [] {
      RollDiceRaises(rolls[0], 0, m);
      var next := RollDice(rolls[0], 0, m);
      if next.Ok? {
        RollsRaise(rolls[1..], next.value);
      }
    }
  }

  /** The rounds of a game never lower a minimum. */
  lemma {:induction false} RoundsRaise(rounds: seq<string>, m: Minimums)
    requires Tracks(m)
    ensures RoundsMinimums(rounds, m).Ok? ==> AtLeast(RoundsMinimums(rounds, m).value, m)
  {
    if rounds != [] {
      RollsRaise(Split(rounds[0], ','), m);
      var next := RollsMinimums(Split(rounds[0], ','), m);
      if next.Ok? {
        RoundsRaise(rounds[1..], next.value);
      }
    }
  }

  lemma PlusPlus(n: nat, m: nat, rest: Outcome<nat>)
    ensures Plus(n, Plus(m, rest)) == Plus(n + m, rest)
  {
  }

  // ---------------------------------------------------------------------
  // The solver

  /** `run(input)`: the first pass's exception if it raises one, and
      otherwise the second pass's outcome. */
  function CubeOutcome(input: string): Outcome<nat>
  {
    match PossibleIdSum(input)
    case Raise(e) => Raise(e)
    case Ok(_) => PowerSumOf(input)
  }

  method Run(input: string) returns (r: Outcome<nat>)
    ensures r == CubeOutcome(input)
  {
    var possible := PossibleGameSum(input);
    if possible.Raise? {
      return Raise(possible.error);
    }
    r := PowerSum(input);
  }
}
