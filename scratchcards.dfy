/** Scratchcards: `adventures/d4y2023.py`.

    Every line is a card `Card <id>: <winning numbers> | <numbers you have>`.
    A card with `w > 0` matching numbers is worth `2 ** (w - 1)` points, and
    wins one copy of each of the next `w` cards for every copy of it held;
    the solver returns the points.  The copies are counted in `scratchcards`,
    a dictionary from card id to the number of copies, which starts with one
    copy of each of the cards `1 .. n` for an input of `n` lines.
 */
module Scratchcards {
  import opened Prelude
  import opened Text

  /** A parsed card. */
  datatype Card = Card(id: nat, winning: seq<nat>, ours: seq<nat>)

  // ---------------------------------------------------------------------
  // Parsing (lines 20-34)

  /** Lines 25-34: `[int(number) for number in tokens if number != ""]`, or
      the `ValueError` of a token that is not a number. */
  function Numbers(tokens: seq<string>): Outcome<seq<nat>>
  {
    if tokens == [] then Ok([])
    else if tokens[0] == "" then Numbers(tokens[1..])
    else match ParseInt(tokens[0])
      case None => Raise(ValueError)
      case Some(n) => After([n], Numbers(tokens[1..]))
  }

  /** Lines 20-34: the id, the winning numbers and the numbers held, or the
      exception the first failing expression raises. */
  function ParseCard(card: string): Outcome<Card>
  {
    var words := Split(Split(card, ':')[0], ' ');
    match ParseInt(words[|words| - 1])
    case None => Raise(ValueError)
    case Some(id) =>
      var pieces := Split(card, ':');
      if |pieces| < 2 then Raise(IndexError)
      else
        var halves := Split(pieces[1], '|');
        match Numbers(Split(halves[0], ' '))
        case Raise(e) => Raise(e)
        case Ok(winning) =>
          if |halves| < 2 then Raise(IndexError)
          else
            match Numbers(Split(halves[1], ' '))
            case Raise(e) => Raise(e)
            case Ok(ours) => Ok(Card(id, winning, ours))
  }

  // ---------------------------------------------------------------------
  // Points (lines 36-41)

  /** How many of the numbers held occur among the winning numbers, a
      number held twice counting twice. */
  function Matches(ours: seq<nat>, winning: seq<nat>): nat
  {
    if ours == [] then 0
    else Matches(ours[..|ours| - 1], winning) + (if ours[|ours| - 1] in winning then 1 else 0)
  }

  /** None, some or all of the numbers held match. */
  lemma {:induction false} MatchesRange(ours: seq<nat>, winning: seq<nat>)
    ensures Matches(ours, winning) <= |ours|
    ensures Matches(ours, winning) == 0 <==> forall i :: 0 <= i < |ours| ==> ours[i] !in winning
    ensures Matches(ours, winning) == |ours| <==> forall i :: 0 <= i < |ours| ==> ours[i] in winning
  {
    if ours != [] {
      var init := ours[..|ours| - 1];
      MatchesRange(init, winning);
      assert forall i :: 0 <= i < |init| ==> init[i] == ours[i];
    }
  }

  /** Lines 36-39. */
  method CountWinners(ours: seq<nat>, winning: seq<nat>) returns (winners: nat)
    ensures winners == Matches(ours, winning)
  {
    winners := 0;
    for i := 0 to |ours|
      invariant winners == Matches(ours[..i], winning)
    {
      assert ours[..i + 1][..i] == ours[..i];
      if ours[i] in winning {
        winners := winners + 1;
      }
    }
    assert ours[..|ours|] == ours;
  }

  /** `2 ** n` */
  function Pow2(n: nat): nat
  {
    if n == 0 then 1 else 2 * Pow2(n - 1)
  }

  /** Lines 40-41: the points of a card with `winners` matches. */
  function Points(winners: nat): nat
  {
    if winners > 0 then Pow2(winners - 1) else 0
  }

  /** A card without matches is worth nothing, one with a match one point,
      and every further match doubles the points. */
  lemma PointsDouble(winners: nat)
    ensures Points(0) == 0 && Points(1) == 1
    ensures winners > 0 ==> Points(winners + 1) == 2 * Points(winners)
  {
  }

  // ---------------------------------------------------------------------
  // Copies (lines 15-17, 42-47)

  /** Lines 15-17: one copy of each of the cards `1 .. n`. */
  function Initial(n: nat): (counts: map<int, nat>)
    ensures forall k :: k in counts <==> 1 <= k <= n
    ensures forall k :: k in counts ==> counts[k] == 1
  {
    if n == 0 then map[] else Initial(n - 1)[n := 1]
  }

  /** Lines 15-17. */
  method Deal(n: nat) returns (scratchcards: map<int, nat>)
    ensures scratchcards == Initial(n)
  {
    scratchcards := map[];
    for i := 0 to n
      invariant scratchcards == Initial(i)
    {
      scratchcards := scratchcards[i + 1 := 1];
    }
  }

  /** After `copies` copies of card `id` with `winners` matches: each card
      among `id + 1 .. id + winners` that exists has `copies` more copies. */
  function Won(counts: map<int, nat>, id: int, winners: nat, copies: nat): (counts': map<int, nat>)
    ensures counts'.Keys == counts.Keys
  {
    map k | k in counts :: if id < k <= id + winners then counts[k] + copies else counts[k]
  }

  /** Lines 42-47: one extra copy of each of the next `winners` cards for
      each copy of card `id`; an id without a card raises a `KeyError`
      that line 46 discards. */
  method Cascade(counts: map<int, nat>, id: int, winners: nat) returns (counts': map<int, nat>)
    requires id in counts
    ensures counts' == Won(counts, id, winners, counts[id])
  {
    counts' := counts;
    for t := 0 to counts[id]
      invariant counts' == Won(counts, id, winners, t)
    {
      for idx := id + 1 to id + winners + 1
        invariant counts' == Passing(counts, id, winners, t, idx)
      {
        if idx in counts' {
          counts' := counts'[idx := counts'[idx] + 1];
        }
      }
    }
  }

  /** Part way through pass `t` of lines 43-47: the cards before `idx`
      have their copy of this pass. */
  function Passing(counts: map<int, nat>, id: int, winners: nat, t: nat, idx: int): map<int, nat>
  {
    map k | k in counts :: if id < k < idx then counts[k] + t + 1 else if idx <= k <= id + winners then counts[k] + t else counts[k]
  }

  /** Copies are only ever added: the cards stay the same and none has
      fewer copies than before. */
  lemma WonGrows(counts: map<int, nat>, id: int, winners: nat, copies: nat)
    ensures Won(counts, id, winners, copies).Keys == counts.Keys
    ensures forall k :: k in counts ==> Won(counts, id, winners, copies)[k] >= counts[k]
    ensures forall k :: k in counts && !(id < k <= id + winners) ==> Won(counts, id, winners, copies)[k] == counts[k]
  {
  }

  // ---------------------------------------------------------------------
  // The solver (lines 5-53)

  /** The points so far and the copies of each card. */
  datatype Pile = Pile(winnings: nat, counts: map<int, nat>)

  /** Lines 36-47 on one parsed card: a card without matches changes
      nothing; otherwise it adds its points and its copies, or raises the
      `KeyError` of line 42 when its id is not one of the cards. */
  function Scratch(pile: Pile, card: Card): Outcome<Pile>
  {
    var w := Matches(card.ours, card.winning);
    if w == 0 then Ok(pile)
    else if card.id !in pile.counts then Raise(KeyError)
    else Ok(Pile(pile.winnings + Points(w), Won(pile.counts, card.id, w, pile.counts[card.id])))
  }

  /** Lines 19-48 over `lines`, starting from one copy of each of `n` cards:
      the pile after the last line, or the first exception. */
  function Play(lines: seq<string>, n: nat): Outcome<Pile>
  {
    if lines == [] then Ok(Pile(0, Initial(n)))
    else Next(Play(lines[..|lines| - 1], n), lines[|lines| - 1])
  }

  /** Lines 20-48 on one more line. */
  function Next(before: Outcome<Pile>, line: string): Outcome<Pile>
  {
    match before
    case Raise(e) => Raise(e)
    case Ok(pile) =>
      match ParseCard(line)
      case Raise(e) => Raise(e)
      case Ok(card) => Scratch(pile, card)
  }

  /** What `run` returns on `input`: the points of all the cards. */
  function ScratchOutcome(input: string): Outcome<nat>
  {
    var lines := SplitLines(input);
    match Play(lines, |lines|)
    case Raise(e) => Raise(e)
    case Ok(pile) => Ok(pile.winnings)
  }

  /** Once a line raises, so does the whole input. */
  lemma {:induction false} PlayRaises(lines: seq<string>, n: nat, j: nat)
    requires j <= |lines| && Play(lines[..j], n).Raise?
    ensures Play(lines, n) == Play(lines[..j], n)
    decreases |lines| - j
  {
    if j < |lines| {
      assert lines[..j + 1][..j] == lines[..j];
      PlayRaises(lines, n, j + 1);
    } else {
      assert lines[..j] == lines;
    }
  }

  /** Lines 36-47 on one card. */
  method Turn(pile: Pile, card: Card) returns (next: Outcome<Pile>)
    ensures next == Scratch(pile, card)
  {
    var winnings, scratchcards := pile.winnings, pile.counts;
    var winners := CountWinners(card.ours, card.winning);
    if winners > 0 {
      winnings := winnings + Points(winners);
      if card.id !in scratchcards {
        return Raise(KeyError);
      }
      scratchcards := Cascade(scratchcards, card.id, winners);
    }
    return Ok(Pile(winnings, scratchcards));
  }

  method Run(input: string) returns (r: Outcome<nat>)
    ensures r == ScratchOutcome(input)
  {
    var lines := SplitLines(input);
    var scratchcards := Deal(|lines|);
    var winnings: nat := 0;
    for j := 0 to |lines|
      invariant Play(lines[..j], |lines|) == Ok(Pile(winnings, scratchcards))
    {
      assert lines[..j + 1][..j] == lines[..j];
      assert Play(lines[..j + 1], |lines|) == Next(Ok(Pile(winnings, scratchcards)), lines[j]);
      var card := ParseCard(lines[j]);
      if card.Raise? {
        PlayRaises(lines, |lines|, j + 1);
        return Raise(card.error);
      }
      var next := Turn(Pile(winnings, scratchcards), card.value);
      if next.Raise? {
        PlayRaises(lines, |lines|, j + 1);
        return Raise(next.error);
      }
      winnings, scratchcards := next.value.winnings, next.value.counts;
    }
    assert lines[..|lines|] == lines;
    r := Ok(winnings);
  }

  // ---------------------------------------------------------------------
  // What the solver computes

  /** The cards of `lines`, or the first exception parsing them raises. */
  function Cards(lines: seq<string>): Outcome<seq<Card>>
  {
    if lines == [] then Ok([])
    else
      match Cards(lines[..|lines| - 1])
      case Raise(e) => Raise(e)
      case Ok(cards) =>
        match ParseCard(lines[|lines| - 1])
        case Raise(e) => Raise(e)
        case Ok(card) => Ok(cards + [card])
  }

  /** The points of `cards`, which do not depend on the copies. */
  function TotalPoints(cards: seq<Card>): nat
  {
    if cards == [] then 0
    else
      var last := cards[|cards| - 1];
      TotalPoints(cards[..|cards| - 1]) + Points(Matches(last.ours, last.winning))
  }

  /** When the solver returns, every line was a card, the result is the
      total of their points, the cards `1 .. n` are still the ones counted,
      and each has at least its first copy. */
  lemma {:induction false} PlayPoints(lines: seq<string>, n: nat)
    requires Play(lines, n).Ok?
    ensures Cards(lines).Ok?
    ensures Play(lines, n).value.winnings == TotalPoints(Cards(lines).value)
    ensures Play(lines, n).value.counts.Keys == Initial(n).Keys
    ensures forall k :: k in Play(lines, n).value.counts ==> Play(lines, n).value.counts[k] >= 1
  {
    if lines != [] {
      var init := lines[..|lines| - 1];
      PlayPoints(init, n);
      var pile := Play(init, n).value;
      var card := ParseCard(lines[|lines| - 1]).value;
      var cards := Cards(init).value + [card];
      assert cards[..|cards| - 1] == Cards(init).value;
      var w := Matches(card.ours, card.winning);
      if w > 0 {
        WonGrows(pile.counts, card.id, w, pile.counts[card.id]);
      }
    }
  }

  /** Cards with ids among `1 .. n` never raise a `KeyError`: the solver
      returns as soon as every line is a card. */
  lemma {:induction false} PlayKnownIds(lines: seq<string>, n: nat)
    requires Cards(lines).Ok?
    requires forall i :: 0 <= i < |Cards(lines).value| ==> 1 <= Cards(lines).value[i].id <= n
    ensures Play(lines, n).Ok?
  {
    if lines != [] {
      var init := lines[..|lines| - 1];
      var cards := Cards(lines).value;
      assert Cards(init).value == cards[..|cards| - 1];
      assert forall i :: 0 <= i < |Cards(init).value| ==> Cards(init).value[i] == cards[i];
      PlayKnownIds(init, n);
      PlayPoints(init, n);
      assert cards[|cards| - 1] == ParseCard(lines[|lines| - 1]).value;
    }
  }
}
