/** Scratchcards written out the way the puzzle prints them, and what the
    solver of `adventures/d4y2023.py` computes on such a text. */
module ScratchcardText {
  import opened Prelude
  import opened Text
  import opened Scratchcards

  /** The tokens `split(" ")` makes of one number printed right-aligned in
      a column two characters wide: a number below 10 gets an extra space. */
  function CellTokens(x: nat): seq<string>
  {
    if x < 10 then ["", Str(x)] else [Str(x)]
  }

  function Tokens(xs: seq<nat>): seq<string>
  {
    if xs == [] then [] else CellTokens(xs[0]) + Tokens(xs[1..])
  }

  /** ` 41 48  6 ` on the left of the bar, ` 83 86  6` on its right. */
  function WinningText(xs: seq<nat>): string
  {
    Join([""] + Tokens(xs) + [""], ' ')
  }

  function OursText(xs: seq<nat>): string
  {
    Join([""] + Tokens(xs), ' ')
  }

  /** `Card <id>:<winning>|<ours>` */
  function CardText(c: Card): string
  {
    "Card " + Str(c.id) + ":" + WinningText(c.winning) + "|" + OursText(c.ours)
  }

  function CardTexts(cards: seq<Card>): (r: seq<string>)
    ensures |r| == |cards|
  {
    if cards == [] then [] else CardTexts(cards[..|cards| - 1]) + [CardText(cards[|cards| - 1])]
  }

  // ---------------------------------------------------------------------
  // The numbers

  /** Parsing a list of tokens piece by piece. */
  lemma {:induction false} NumbersConcat(a: seq<string>, b: seq<string>)
    requires Numbers(a).Ok?
    ensures Numbers(a + b) == After(Numbers(a).value, Numbers(b))
  {
    if a == [] {
      assert a + b == b;
      AfterNothing(Numbers(b));
    } else {
      assert (a + b)[1..] == a[1..] + b;
      NumbersConcat(a[1..], b);
      if a[0] != "" {
        var n := ParseInt(a[0]).value;
        var rest := Numbers(a[1..]).value;
        assert Numbers(a).value == [n] + rest;
        if Numbers(b).Ok? {
          assert [n] + (rest + Numbers(b).value) == [n] + rest + Numbers(b).value;
        }
      }
    }
  }

  lemma CellNumbers(x: nat)
    ensures Numbers(CellTokens(x)) == Ok([x])
  {
    ParseStr(x);
    var t := [Str(x)];
    assert t[0] != "" && t[1..] == [];
    assert Numbers(t) == After([x], Numbers([]));
    assert [x] + [] == [x];
    if x < 10 {
      assert CellTokens(x)[1..] == t;
    }
  }

  /** The empty tokens are skipped and every other one is read back as the
      number it prints. */
  lemma {:induction false} TokensNumbers(xs: seq<nat>)
    ensures Numbers(Tokens(xs)) == Ok(xs)
  {
    if xs != [] {
      CellNumbers(xs[0]);
      TokensNumbers(xs[1..]);
      NumbersConcat(CellTokens(xs[0]), Tokens(xs[1..]));
      assert xs == [xs[0]] + xs[1..];
    }
  }

  lemma {:induction false} TokensLack(xs: seq<nat>, c: char)
    requires !IsDigit(c)
    ensures forall k :: 0 <= k < |Tokens(xs)| ==> c !in Tokens(xs)[k]
  {
    if xs != [] {
      TokensLack(xs[1..], c);
      StrLacks(xs[0], c);
      var cell := CellTokens(xs[0]);
      assert forall k :: 0 <= k < |cell| ==> c !in cell[k];
      assert forall k :: |cell| <= k < |Tokens(xs)| ==> Tokens(xs)[k] == Tokens(xs[1..])[k - |cell|];
    }
  }

  /** Both halves of a card read back as the numbers they print. */
  lemma SidesNumbers(winning: seq<nat>, ours: seq<nat>)
    ensures Numbers(Split(WinningText(winning), ' ')) == Ok(winning)
    ensures Numbers(Split(OursText(ours), ' ')) == Ok(ours)
  {
    WinningNumbers(winning);
    OursNumbers(ours);
  }

  lemma WinningNumbers(winning: seq<nat>)
    ensures Numbers(Split(WinningText(winning), ' ')) == Ok(winning)
  {
    var w := [""] + Tokens(winning) + [""];
    TokensLack(winning, ' ');
    assert forall k :: 0 <= k < |w| ==> ' ' !in w[k] by {
      assert forall k :: 1 <= k < |w| - 1 ==> w[k] == Tokens(winning)[k - 1];
    }
    SplitJoin(w, ' ');
    TokensNumbers(winning);
    assert Numbers(w) == Numbers(Tokens(winning) + [""]) by {
      assert w[1..] == Tokens(winning) + [""];
    }
    NumbersConcat(Tokens(winning), [""]);
    assert Numbers([""]) == Ok([]) by {
      assert [""][1..] == [];
    }
    assert winning + [] == winning;
  }

  lemma OursNumbers(ours: seq<nat>)
    ensures Numbers(Split(OursText(ours), ' ')) == Ok(ours)
  {
    var o := [""] + Tokens(ours);
    TokensLack(ours, ' ');
    assert forall k :: 0 <= k < |o| ==> ' ' !in o[k] by {
      assert forall k :: 1 <= k < |o| ==> o[k] == Tokens(ours)[k - 1];
    }
    SplitJoin(o, ' ');
    TokensNumbers(ours);
    assert o[1..] == Tokens(ours);
  }

  lemma SidesLack(winning: seq<nat>, ours: seq<nat>, c: char)
    requires !IsDigit(c) && c != ' '
    ensures c !in WinningText(winning) && c !in OursText(ours)
  {
    var w := [""] + Tokens(winning) + [""];
    var o := [""] + Tokens(ours);
    TokensLack(winning, c);
    TokensLack(ours, c);
    assert forall k :: 0 <= k < |w| ==> c !in w[k] by {
      assert forall k :: 1 <= k < |w| - 1 ==> w[k] == Tokens(winning)[k - 1];
    }
    assert forall k :: 0 <= k < |o| ==> c !in o[k] by {
      assert forall k :: 1 <= k < |o| ==> o[k] == Tokens(ours)[k - 1];
    }
    JoinAbsent(w, ' ', c);
    JoinAbsent(o, ' ', c);
  }

  // ---------------------------------------------------------------------
  // A card

  /** How lines 20, 24, 27 and 32 take a card's text apart. */
  lemma CardPieces(c: Card)
    ensures Split(CardText(c), ':') == ["Card " + Str(c.id), WinningText(c.winning) + "|" + OursText(c.ours)]
    ensures Split("Card " + Str(c.id), ' ') == ["Card", Str(c.id)]
    ensures Split(WinningText(c.winning) + "|" + OursText(c.ours), '|') == [WinningText(c.winning), OursText(c.ours)]
  {
    var w, o := WinningText(c.winning), OursText(c.ours);
    SidesLack(c.winning, c.ours, ':');
    SidesLack(c.winning, c.ours, '|');
    var word := "Card";
    assert ':' !in word && ' ' !in word;
    assert CardText(c) == word + [' '] + Str(c.id) + [':'] + w + ['|'] + o;
    assert "Card " + Str(c.id) == word + [' '] + Str(c.id);
    assert w + "|" + o == w + ['|'] + o;
    LinePieces(word, c.id, w, o);
  }

  /** The same for any word in front of the id. */
  lemma LinePieces(word: string, id: nat, w: string, o: string)
    requires ':' !in word && ' ' !in word
    requires ':' !in w && ':' !in o && '|' !in w && '|' !in o
    ensures Split(word + [' '] + Str(id) + [':'] + w + ['|'] + o, ':') == [word + [' '] + Str(id), w + ['|'] + o]
    ensures Split(word + [' '] + Str(id), ' ') == [word, Str(id)]
    ensures Split(w + ['|'] + o, '|') == [w, o]
  {
    var head := word + [' '] + Str(id);
    var body := w + ['|'] + o;
    StrLacks(id, ':');
    StrLacks(id, ' ');
    assert word + [' '] + Str(id) + [':'] + w + ['|'] + o == head + [':'] + body;
    SplitConcat(head, body, ':');
    SplitAbsent(head, ':');
    SplitAbsent(body, ':');
    SplitConcat(word, Str(id), ' ');
    SplitAbsent(word, ' ');
    SplitAbsent(Str(id), ' ');
    SplitConcat(w, o, '|');
    SplitAbsent(w, '|');
    SplitAbsent(o, '|');
  }

  /** Lines 20-34 read a card's text back as the card.  `CardText` prints
      one space between `Card` and the id, so this round trip is about that
      layout; puzzle inputs that pad the id to a fixed width are not covered. */
  lemma ParseCardText(c: Card)
    ensures ParseCard(CardText(c)) == Ok(c)
  {
    CardPieces(c);
    ParseStr(c.id);
    SidesNumbers(c.winning, c.ours);
  }

  lemma CardTextLacksBreak(c: Card)
    ensures '\n' !in CardText(c)
  {
    var w, o := WinningText(c.winning), OursText(c.ours);
    SidesLack(c.winning, c.ours, '\n');
    StrLacks(c.id, '\n');
    var word := "Card";
    assert '\n' !in word;
    assert CardText(c) == word + [' '] + Str(c.id) + [':'] + w + ['|'] + o;
  }

  // ---------------------------------------------------------------------
  // A pile of cards

  lemma {:induction false} CardsText(cards: seq<Card>)
    ensures Cards(CardTexts(cards)) == Ok(cards)
  {
    if cards != [] {
      var init := cards[..|cards| - 1];
      CardsText(init);
      ParseCardText(cards[|cards| - 1]);
      var texts := CardTexts(cards);
      assert texts[..|texts| - 1] == CardTexts(init);
      assert cards == init + [cards[|cards| - 1]];
    }
  }

  lemma {:induction false} CardTextsLack(cards: seq<Card>)
    ensures forall k :: 0 <= k < |cards| ==> '\n' !in CardTexts(cards)[k]
  {
    if cards != [] {
      var init := cards[..|cards| - 1];
      CardTextsLack(init);
      CardTextLacksBreak(cards[|cards| - 1]);
      assert forall k :: 0 <= k < |init| ==> CardTexts(cards)[k] == CardTexts(init)[k];
    }
  }

  /** On a pile of cards numbered among `1 .. n` for `n` cards, printed by
      `CardText` (one space before each id), lines 5-53 return the total of
      their points. */
  lemma PileText(cards: seq<Card>)
    requires forall i :: 0 <= i < |cards| ==> 1 <= cards[i].id <= |cards|
    ensures ScratchOutcome(Unlines(CardTexts(cards))) == Ok(TotalPoints(cards))
  {
    var lines := CardTexts(cards);
    CardTextsLack(cards);
    SplitLinesUnlines(lines);
    CardsText(cards);
    PlayKnownIds(lines, |lines|);
    PlayPoints(lines, |lines|);
  }
}
