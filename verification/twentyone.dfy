/** The hand logic of lesson5/21.rb: card strings such as `"10 of Spades"`,
    their values and the hand total, the 52-card deck, the deal from the
    deck's end, the dealer's draw-to-17 rule, the unused ace adjustment and
    the announcements of `Game#winner`. */
module TwentyOne {
  import opened Chars

  /** `Deck::SUITS` */
  const Suits: seq<string> := ["Hearts", "Diamonds", "Spades", "Clubs"]

  /** `Deck::VALUES` */
  const Values: seq<string> := ["2", "3", "4", "5", "6", "7", "8", "9", "10", "K", "Q", "J", "A"]

  /** What each entry of `Values` is worth in a hand, in the same order:
      the reference the parsing of card strings is checked against. */
  const Points: seq<int> := [2, 3, 4, 5, 6, 7, 8, 9, 10, 10, 10, 10, 1]

  /** `"#{value} of #{suit}"` */
  function CardName(value: string, suit: string): string
  {
    value + " of " + suit
  }

  // ---------------------------------------------------------------------
  // Reading a card string: `card[0]`, `card.split[0]` and `String#to_i`.

  /** The characters `String#split` without arguments splits on. */
  predicate IsSpace(c: char)
  {
    c == ' ' || c == '\t' || c == '\n' || c == '\r' || c == '\U{0B}' || c == '\U{0C}'
  }

  predicate NoSpaces(s: string)
  {
    forall i :: 0 <= i < |s| ==> !IsSpace(s[i])
  }

  /** `s` without its leading white space. */
  function DropSpaces(s: string): (r: string)
    ensures |r| <= |s|
  {
    if s != [] && IsSpace(s[0]) then DropSpaces(s[1..]) else s
  }

  /** The longest prefix of `s` free of white space. */
  function TakeWord(s: string): (r: string)
    ensures |r| <= |s| && r == s[..|r|] && NoSpaces(r)
    ensures |r| < |s| ==> IsSpace(s[|r|])
  {
    if s == [] || IsSpace(s[0]) then [] else [s[0]] + TakeWord(s[1..])
  }

  /** `s.split[0]`, with the `nil` of a blank string read as `""` (both
      give 0 under `to_i`, and neither equals `'A'`). */
  function FirstWord(s: string): (r: string)
    ensures NoSpaces(r)
  {
    TakeWord(DropSpaces(s))
  }

  function DigitValue(c: char): (d: nat)
    requires IsDigit(c)
    ensures d <= 9
  {
    c as int - '0' as int
  }

  /** The decimal digits at the front of `s`, read after the digits
      already read, whose value is `acc`. */
  function LeadingNumber(s: string, acc: nat): (n: nat)
    ensures n >= acc
  {
    if s == [] || !IsDigit(s[0]) then acc
    else LeadingNumber(s[1..], 10 * acc + DigitValue(s[0]))
  }

  /** `String#to_i` of a word: an optional sign, then the leading digits;
      0 when there are none. */
  function ToI(w: string): int
  {
    if w != [] && w[0] == '-' then -(LeadingNumber(w[1..], 0) as int)
    else if w != [] && w[0] == '+' then LeadingNumber(w[1..], 0)
    else LeadingNumber(w, 0)
  }

  /** The value `Participant#total` gives one card: K, Q and J count 10,
      A counts 1, any other card the integer of its first word. */
  function CardValue(card: string): int
  {
    if card != [] && (card[0] == 'K' || card[0] == 'Q' || card[0] == 'J') then 10
    else if card != [] && card[0] == 'A' then 1
    else ToI(FirstWord(card))
  }

  /** The first word of a card name is its value. */
  lemma {:induction false} TakeWordBeforeSpace(v: string, rest: string)
    requires NoSpaces(v)
    requires rest != [] && IsSpace(rest[0])
    ensures TakeWord(v + rest) == v
    decreases |v|
  {
    if v == [] {
      assert v + rest == rest;
    } else {
      assert (v + rest)[0] == v[0];
      assert (v + rest)[1..] == v[1..] + rest;
      TakeWordBeforeSpace(v[1..], rest);
    }
  }

  lemma FirstWordOfCardName(v: string, s: string)
    requires v != [] && NoSpaces(v)
    ensures FirstWord(CardName(v, s)) == v
  {
    var name := CardName(v, s);
    assert name == v + (" of " + s);
    assert name[0] == v[0];
    TakeWordBeforeSpace(v, " of " + s);
  }

  lemma ValuesAreWords(i: nat)
    requires i < |Values|
    ensures Values[i] != [] && NoSpaces(Values[i])
  {
  }

  /** Reading a deck card back gives its value's points: the face cards
      count 10, the ace 1 and `"10 of …"` ten. */
  lemma DeckCardValue(i: nat, s: string)
    requires i < |Values|
    ensures CardValue(CardName(Values[i], s)) == Points[i]
  {
    var v := Values[i];
    ValuesAreWords(i);
    FirstWordOfCardName(v, s);
    var name := CardName(v, s);
    assert name[0] == v[0];
    if i == 8 {
      assert v == "10" && v[1..] == "0" && v[1..][1..] == [];
    }
  }

  /** Different values or suits give different card names. */
  lemma CardNameInjective(v1: string, s1: string, v2: string, s2: string)
    requires v1 != [] && NoSpaces(v1) && v2 != [] && NoSpaces(v2)
    requires CardName(v1, s1) == CardName(v2, s2)
    ensures v1 == v2 && s1 == s2
  {
    FirstWordOfCardName(v1, s1);
    FirstWordOfCardName(v2, s2);
    var name := CardName(v1, s1);
    assert s1 == name[|v1| + 4..];
    assert s2 == name[|v2| + 4..];
  }

  // ---------------------------------------------------------------------
  // The deck.

  /** The deck `Deck#new_deck` builds, as a reference: suit-major, so the
      card at position `i` has value `Values[i % 13]` and suit
      `Suits[i / 13]`. */
  function StandardDeck(): (d: seq<string>)
    ensures |d| == 52
    ensures forall i :: 0 <= i < 52 ==> d[i] == CardName(Values[i % 13], Suits[i / 13])
  {
    seq(52, i requires 0 <= i < 52 => CardName(Values[i % 13], Suits[i / 13]))
  }

  /** Position `13 * s + v` of the deck holds value `v` of suit `s`. */
  lemma StandardDeckAt(s: nat, v: nat)
    requires s < |Suits| && v < |Values|
    ensures StandardDeck()[13 * s + v] == CardName(Values[v], Suits[s])
  {
    assert (13 * s + v) % 13 == v && (13 * s + v) / 13 == s;
  }

  /** `Deck#new_deck`: for each suit in order, for each value in order,
      append `"#{value} of #{suit}"`. */
  method NewDeck() returns (deck: seq<string>)
    ensures deck == StandardDeck()
  {
    deck := [];
    var si := 0;
    while si < |Suits|
      invariant 0 <= si <= |Suits|
      invariant |deck| == 13 * si
      invariant deck == StandardDeck()[..|deck|]
    {
      var vi := 0;
      while vi < |Values|
        invariant 0 <= vi <= |Values|
        invariant |deck| == 13 * si + vi
        invariant deck == StandardDeck()[..|deck|]
      {
        StandardDeckAt(si, vi);
        deck := deck + [CardName(Values[vi], Suits[si])];
        vi := vi + 1;
      }
      si := si + 1;
    }
  }

  /** The 52 cards are pairwise different. */
  lemma StandardDeckDistinct()
    ensures forall i, j :: 0 <= i < j < 52 ==> StandardDeck()[i] != StandardDeck()[j]
  {
    var d := StandardDeck();
    forall i, j | 0 <= i < j < 52
      ensures d[i] != d[j]
    {
      if d[i] == d[j] {
        ValuesAreWords(i % 13);
        ValuesAreWords(j % 13);
        CardNameInjective(Values[i % 13], Suits[i / 13], Values[j % 13], Suits[j / 13]);
      }
    }
  }

  /** A card of the standard deck. */
  predicate Standard(card: string)
  {
    card in StandardDeck()
  }

  /** Every standard card is worth between 1 and 10, and it is an ace
      (`card.split[0] == 'A'`) exactly when it is worth 1. */
  lemma StandardCardValue(card: string)
    requires Standard(card)
    ensures 1 <= CardValue(card) <= 10
    ensures IsAce(card) <==> CardValue(card) == 1
  {
    var d := StandardDeck();
    var i :| 0 <= i < 52 && d[i] == card;
    DeckCardValue(i % 13, Suits[i / 13]);
    ValuesAreWords(i % 13);
    FirstWordOfCardName(Values[i % 13], Suits[i / 13]);
  }

  // ---------------------------------------------------------------------
  // Hands.

  /** `Participant#total`: `values.inject(:+)`, the left-to-right sum of
      the card values. It is defined only for a non-empty hand (`inject`
      on an empty array gives `nil`). */
  function Total(cards: seq<string>): int
    requires |cards| > 0
  {
    if |cards| == 1 then CardValue(cards[0])
    else Total(cards[..|cards| - 1]) + CardValue(cards[|cards| - 1])
  }

  /** `Participant#busted?`: `true` when the total exceeds 21, `nil`
      (read as false) otherwise. */
  predicate Busted(cards: seq<string>)
    requires |cards| > 0
  {
    Total(cards) > 21
  }

  /** When every card is worth 1 to 10, a hand of `n` cards totals
      between `n` and `10 n`. */
  lemma {:induction false} TotalBounds(cards: seq<string>)
    requires |cards| > 0
    requires forall i :: 0 <= i < |cards| ==> 1 <= CardValue(cards[i]) <= 10
    ensures |cards| <= Total(cards) <= 10 * |cards|
  {
    if |cards| > 1 {
      var front := cards[..|cards| - 1];
      assert forall i :: 0 <= i < |front| ==> front[i] == cards[i];
      TotalBounds(front);
    }
  }

  /** A hand of standard cards totals between its size and ten times it. */
  lemma StandardHandBounds(cards: seq<string>)
    requires |cards| > 0
    requires forall i :: 0 <= i < |cards| ==> Standard(cards[i])
    ensures |cards| <= Total(cards) <= 10 * |cards|
  {
    forall i | 0 <= i < |cards|
      ensures 1 <= CardValue(cards[i]) <= 10
    {
      StandardCardValue(cards[i]);
    }
    TotalBounds(cards);
  }

  /** Two standard cards never bust: the most they total is 20. */
  lemma TwoCardsNeverBust(cards: seq<string>)
    requires |cards| == 2
    requires forall i :: 0 <= i < |cards| ==> Standard(cards[i])
    ensures !Busted(cards)
  {
    StandardHandBounds(cards);
  }

  /** `Hand#hit`: the card goes on the end of the hand. */
  function Hit(cards: seq<string>, card: string): (r: seq<string>)
    ensures |r| == |cards| + 1 && r[..|cards|] == cards && r[|cards|] == card
  {
    cards + [card]
  }

  /** A hit adds exactly the new card's value to the total. */
  lemma HitAddsCardValue(cards: seq<string>, card: string)
    requires |cards| > 0
    ensures Total(Hit(cards, card)) == Total(cards) + CardValue(card)
  {
    assert Hit(cards, card)[..|cards|] == cards;
  }

  /** `card.split[0] == 'A'` */
  predicate IsAce(card: string)
  {
    FirstWord(card) == "A"
  }

  predicate HasAce(cards: seq<string>)
  {
    exists i :: 0 <= i < |cards| && IsAce(cards[i])
  }

  /** `Hand#ace_value`, which no caller uses (the call in `total` is
      commented out): ten more when the hand holds an ace and the value is
      below 11, otherwise the value itself. */
  function AceValue(cards: seq<string>, v: int): (r: int)
    ensures HasAce(cards) && v < 11 ==> r == v + 10
    ensures !HasAce(cards) || v >= 11 ==> r == v
  {
    var aces := AceCount(cards);
    if aces >= 1 && v < 11 then v + 10 else v + 0
  }

  /** `cards.select { |card| card.split[0] == 'A' }.size` */
  function AceCount(cards: seq<string>): (n: nat)
    ensures n <= |cards|
    ensures n >= 1 <==> HasAce(cards)
  {
    if cards == [] then 0
    else
      var rest := AceCount(cards[1..]);
      assert HasAce(cards[1..]) ==> HasAce(cards) by {
        if HasAce(cards[1..]) {
          var i :| 0 <= i < |cards[1..]| && IsAce(cards[1..][i]);
          assert cards[i + 1] == cards[1..][i];
        }
      }
      assert HasAce(cards) && !IsAce(cards[0]) ==> HasAce(cards[1..]) by {
        if HasAce(cards) && !IsAce(cards[0]) {
          var i :| 0 <= i < |cards| && IsAce(cards[i]);
          assert cards[1..][i - 1] == cards[i];
        }
      }
      (if IsAce(cards[0]) then 1 else 0) + rest
  }

  /** The adjustment never turns a hand of at most 21 into a bust and
      never lowers a value. */
  lemma AceValueNeverBusts(cards: seq<string>, v: int)
    requires v <= 21
    ensures v <= AceValue(cards, v) <= 21
  {
  }

  // ---------------------------------------------------------------------
  // The table: the deck and the two hands.

  datatype Table = Table(deck: seq<string>, player: seq<string>, dealer: seq<string>)

  /** One pass of the loop in `Hand#deal`: `deck.pop` to the player, then
      `deck.pop` to the dealer. */
  function DealPair(t: Table): (r: Table)
    requires |t.deck| >= 2
  {
    var n := |t.deck|;
    Table(t.deck[..n - 2], Hit(t.player, t.deck[n - 1]), Hit(t.dealer, t.deck[n - 2]))
  }

  /** `Hand#deal`: two passes. The last card of the deck goes to the
      player, the one before it to the dealer, then again; the deck loses
      exactly those four cards and nothing else changes. The deck must
      hold four cards (`pop` on an empty deck gives `nil`). */
  function Deal(t: Table): (r: Table)
    requires |t.deck| >= 4
    ensures var n := |t.deck|;
            && r.deck == t.deck[..n - 4]
            && r.player == t.player + [t.deck[n - 1], t.deck[n - 3]]
            && r.dealer == t.dealer + [t.deck[n - 2], t.deck[n - 4]]
  {
    var d := t.deck;
    var n := |d|;
    var t1 := DealPair(t);
    assert t1.deck == d[..n - 2] && t1.player == t.player + [d[n - 1]] && t1.dealer == t.dealer + [d[n - 2]];
    var r := DealPair(t1);
    assert r.deck == d[..n - 4];
    assert r.player == t.player + [d[n - 1], d[n - 3]];
    assert r.dealer == t.dealer + [d[n - 2], d[n - 4]];
    r
  }

  /** `Game#reset`: the deck `Deck.new.new_deck` builds and two empty
      hands. The deck is the suit-major reference deck, so its 52 cards are
      pairwise different and every shuffle of it is a permutation of
      `StandardDeck()`. */
  method Reset() returns (r: Table)
    ensures r.player == [] && r.dealer == []
    ensures r.deck == StandardDeck()
    ensures |r.deck| == 52 && forall i, j :: 0 <= i < j < 52 ==> r.deck[i] != r.deck[j]
  {
    var deck := NewDeck();
    StandardDeckDistinct();
    r := Table(deck, [], []);
  }

  /** `dealt` is `hand` followed by cards taken one by one with
      `deck.pop`, so in the order `pop` yields them, and `rest` is what is
      left of the deck. */
  predicate DrawnFromEnd(hand: seq<string>, deck: seq<string>, dealt: seq<string>, rest: seq<string>)
  {
    && |hand| <= |dealt| && dealt[..|hand|] == hand
    && |rest| + (|dealt| - |hand|) == |deck| && rest == deck[..|rest|]
    && forall k :: |hand| <= k < |dealt| ==> dealt[k] == deck[|deck| - 1 - (k - |hand|)]
  }

  /** Of two draws from the same deck, the shorter is a prefix of the
      longer, and two draws of the same length are the same draw. */
  lemma DrawnFromEndPrefix(hand: seq<string>, deck: seq<string>,
                           d1: seq<string>, r1: seq<string>, d2: seq<string>, r2: seq<string>)
    requires DrawnFromEnd(hand, deck, d1, r1) && DrawnFromEnd(hand, deck, d2, r2)
    requires |d1| <= |d2|
    ensures d1 == d2[..|d1|]
    ensures |d1| == |d2| ==> d1 == d2 && r1 == r2
  {
    forall k | 0 <= k < |d1|
      ensures d1[k] == d2[k]
    {
      if k < |hand| {
        assert d1[k] == d1[..|hand|][k] && d2[k] == d2[..|hand|][k];
      }
    }
  }

  /** The end of `Game#dealer_turn` for a dealer holding `hand` before the
      turn: the dealer has drawn from the deck's end, every card at a total
      below 17; the turn stopped at 17 or more, unless the deck ran out
      (`exhausted`), which is the point where the source would `pop` an
      empty deck, append `nil` and fail on the next total. */
  predicate DealerTurnResult(hand: seq<string>, deck: seq<string>, dealt: seq<string>, rest: seq<string>, exhausted: bool)
    requires |hand| > 0
  {
    && DrawnFromEnd(hand, deck, dealt, rest)
    && (forall k :: |hand| <= k < |dealt| ==> Total(dealt[..k]) < 17)
    && (exhausted <==> Total(dealt) < 17)
    && (exhausted ==> rest == [])
  }

  /** The dealer's turn is determined by the hand and the deck: at most
      one result meets `DealerTurnResult`. */
  lemma DealerTurnResultUnique(hand: seq<string>, deck: seq<string>,
                               d1: seq<string>, r1: seq<string>, x1: bool,
                               d2: seq<string>, r2: seq<string>, x2: bool)
    requires |hand| > 0
    requires DealerTurnResult(hand, deck, d1, r1, x1)
    requires DealerTurnResult(hand, deck, d2, r2, x2)
    ensures d1 == d2 && r1 == r2 && x1 == x2
  {
    DealerTurnNotShorter(hand, deck, d1, r1, x1, d2, r2, x2);
    DealerTurnNotShorter(hand, deck, d2, r2, x2, d1, r1, x1);
    DrawnFromEndPrefix(hand, deck, d1, r1, d2, r2);
  }

  lemma DealerTurnNotShorter(hand: seq<string>, deck: seq<string>,
                             d1: seq<string>, r1: seq<string>, x1: bool,
                             d2: seq<string>, r2: seq<string>, x2: bool)
    requires |hand| > 0
    requires DealerTurnResult(hand, deck, d1, r1, x1)
    requires DealerTurnResult(hand, deck, d2, r2, x2)
    ensures |d2| <= |d1|
  {
    if |d1| < |d2| {
      DrawnFromEndPrefix(hand, deck, d1, r1, d2, r2);
    }
  }

  /** `Game#dealer_turn`: the dealer takes `deck.pop` while the total is
      below 17. */
  method DealerTurn(hand: seq<string>, deck: seq<string>)
    returns (dealt: seq<string>, rest: seq<string>, exhausted: bool)
    requires |hand| > 0
    ensures DealerTurnResult(hand, deck, dealt, rest, exhausted)
  {
    dealt, rest := hand, deck;
    while Total(dealt) < 17 && rest != []
      invariant DrawnFromEnd(hand, deck, dealt, rest)
      invariant forall k :: |hand| <= k < |dealt| ==> Total(dealt[..k]) < 17
      decreases |rest|
    {
      var card := rest[|rest| - 1];
      var before := dealt;
      dealt := Hit(dealt, card);
      rest := rest[..|rest| - 1];
      assert dealt[..|before|] == before;
      assert forall k :: |hand| <= k < |before| ==> dealt[..k] == before[..k];
    }
    exhausted := Total(dealt) < 17;
  }

  /** How `Game#player_turn` ends: the human stays, the hand busts, the
      console entries run out, or a hit meets an empty deck (the source
      appends `nil` and fails). */
  datatype TurnEnd = Stayed | BustedOut | OutOfInput | OutOfCards

  /** The end of `Game#player_turn` for a player holding `hand` before the
      turn, with `hits` the human's valid answers in order (`true` for
      `hit`, `false` for `stay`). The first `used` answers were read. Each
      of them but the last that ended the turn was `hit`, and each such hit
      took one card from the deck's end at a total of 21 or less. The turn
      ends on the first `stay`, on a bust, when the answers run out, or on
      a `hit` that meets an empty deck. */
  predicate PlayerTurnResult(hand: seq<string>, deck: seq<string>, hits: seq<bool>,
                             dealt: seq<string>, rest: seq<string>, used: nat, ending: TurnEnd)
    requires |hand| > 0
  {
    && DrawnFromEnd(hand, deck, dealt, rest)
    && (forall k :: |hand| <= k < |dealt| ==> !Busted(dealt[..k]))
    && used <= |hits|
    && used == |dealt| - |hand| + (if ending == Stayed || ending == OutOfCards then 1 else 0)
    && (forall i :: 0 <= i < |dealt| - |hand| ==> hits[i])
    && (ending == BustedOut <==> Busted(dealt))
    && (ending == Stayed ==> !hits[used - 1])
    && (ending == OutOfCards ==> hits[used - 1] && rest == [])
    && (ending == OutOfInput ==> used == |hits|)
  }

  /** The player's turn is determined by the hand, the deck and the
      answers: at most one result meets `PlayerTurnResult`. */
  lemma PlayerTurnResultUnique(hand: seq<string>, deck: seq<string>, hits: seq<bool>,
                               d1: seq<string>, r1: seq<string>, u1: nat, e1: TurnEnd,
                               d2: seq<string>, r2: seq<string>, u2: nat, e2: TurnEnd)
    requires |hand| > 0
    requires PlayerTurnResult(hand, deck, hits, d1, r1, u1, e1)
    requires PlayerTurnResult(hand, deck, hits, d2, r2, u2, e2)
    ensures d1 == d2 && r1 == r2 && u1 == u2 && e1 == e2
  {
    PlayerTurnNotShorter(hand, deck, hits, d1, r1, u1, e1, d2, r2, u2, e2);
    PlayerTurnNotShorter(hand, deck, hits, d2, r2, u2, e2, d1, r1, u1, e1);
    DrawnFromEndPrefix(hand, deck, d1, r1, d2, r2);
  }

  lemma PlayerTurnNotShorter(hand: seq<string>, deck: seq<string>, hits: seq<bool>,
                             d1: seq<string>, r1: seq<string>, u1: nat, e1: TurnEnd,
                             d2: seq<string>, r2: seq<string>, u2: nat, e2: TurnEnd)
    requires |hand| > 0
    requires PlayerTurnResult(hand, deck, hits, d1, r1, u1, e1)
    requires PlayerTurnResult(hand, deck, hits, d2, r2, u2, e2)
    ensures |d2| <= |d1|
  {
    if |d1| < |d2| {
      DrawnFromEndPrefix(hand, deck, d1, r1, d2, r2);
    }
  }

  /** `Game#player_turn`: answers are read while the hand is not busted; a
      `hit` takes `deck.pop`, a `stay` ends the turn. Answers other than
      `hit` and `stay` are re-prompted and never reach `hits`. */
  method PlayerTurn(hand: seq<string>, deck: seq<string>, hits: seq<bool>)
    returns (dealt: seq<string>, rest: seq<string>, used: nat, ending: TurnEnd)
    requires |hand| > 0
    ensures PlayerTurnResult(hand, deck, hits, dealt, rest, used, ending)
  {
    dealt, rest, used := hand, deck, 0;
    var playing := true;
    ending := OutOfInput;
    while playing
      invariant DrawnFromEnd(hand, deck, dealt, rest)
      invariant forall k :: |hand| <= k < |dealt| ==> !Busted(dealt[..k])
      invariant |dealt| - |hand| <= used <= |hits|
      invariant forall i :: 0 <= i < |dealt| - |hand| ==> hits[i]
      invariant playing ==> ending == OutOfInput && used == |dealt| - |hand|
      invariant !playing ==> PlayerTurnResult(hand, deck, hits, dealt, rest, used, ending)
      decreases |hits| - used, playing
    {
      if Busted(dealt) {
        playing, ending := false, BustedOut;
      } else if used == |hits| {
        playing := false;
      } else {
        var hit := hits[used];
        used := used + 1;
        if !hit {
          playing, ending := false, Stayed;
        } else if rest == [] {
          playing, ending := false, OutOfCards;
        } else {
          var before := dealt;
          dealt := Hit(dealt, rest[|rest| - 1]);
          rest := rest[..|rest| - 1];
          assert dealt[..|before|] == before;
          assert forall k :: |hand| <= k < |before| ==> dealt[..k] == before[..k];
        }
      }
    }
  }

  // ---------------------------------------------------------------------
  // The outcome.

  /** The lines `winner` can print. */
  datatype Announcement = DealerBustedYouWin | PlayerWon | YouBustedDealerWins | DealerWon | Push

  /** `Game#player_won?`: what it prints. It always returns `nil`. */
  function PlayerWonSays(player: seq<string>, dealer: seq<string>): seq<Announcement>
    requires |player| > 0 && |dealer| > 0
  {
    if Busted(dealer) then [DealerBustedYouWin]
    else if Total(player) > Total(dealer) && !Busted(player) then [PlayerWon]
    else []
  }

  /** `Game#dealer_won?`: what it prints. It always returns `nil`. */
  function DealerWonSays(player: seq<string>, dealer: seq<string>): seq<Announcement>
    requires |player| > 0 && |dealer| > 0
  {
    if Busted(player) then [YouBustedDealerWins]
    else if Total(dealer) > Total(player) && !Busted(dealer) then [DealerWon]
    else []
  }

  /** `Game#winner`: both predicates return `nil`, so both are evaluated
      and then the push test; the result is every line printed, in order. */
  function Winner(player: seq<string>, dealer: seq<string>): seq<Announcement>
    requires |player| > 0 && |dealer| > 0
  {
    PlayerWonSays(player, dealer) + DealerWonSays(player, dealer)
      + (if Total(dealer) == Total(player) then [Push] else [])
  }

  datatype Outcome = PlayerWins | DealerWins | Tie

  /** The intended rule: a busted player loses, else a busted dealer loses,
      else the strictly higher total wins and equal totals push. */
  function Classify(player: seq<string>, dealer: seq<string>): Outcome
    requires |player| > 0 && |dealer| > 0
  {
    if Busted(player) then DealerWins
    else if Busted(dealer) then PlayerWins
    else if Total(player) > Total(dealer) then PlayerWins
    else if Total(dealer) > Total(player) then DealerWins
    else Tie
  }

  /** Who an announcement declares the winner. */
  function Verdict(a: Announcement): Outcome
  {
    match a
    case DealerBustedYouWin => PlayerWins
    case PlayerWon => PlayerWins
    case YouBustedDealerWins => DealerWins
    case DealerWon => DealerWins
    case Push => Tie
  }

  /** Unless both hands are busted, `winner` prints exactly one line, and
      it declares the outcome the rule gives. */
  lemma WinnerAgreesWithClassify(player: seq<string>, dealer: seq<string>)
    requires |player| > 0 && |dealer| > 0
    requires !(Busted(player) && Busted(dealer))
    ensures |Winner(player, dealer)| == 1
    ensures Verdict(Winner(player, dealer)[0]) == Classify(player, dealer)
  {
  }

  /** With both hands busted `winner` would declare both sides winners. */
  lemma BothBustedAnnouncesBoth(player: seq<string>, dealer: seq<string>)
    requires |player| > 0 && |dealer| > 0
    requires Busted(player) && Busted(dealer)
    ensures Winner(player, dealer)[..2] == [DealerBustedYouWin, YouBustedDealerWins]
  {
  }

  /** One round of `Game#start` on a shuffled fresh deck (`shuffle!` is
      any permutation of the 52 cards): `deal`, then `turns_loop` (the
      player's turn, and the dealer's only when the player stayed), then
      `winner`. `afterPlayer` is the deck after the player's turn and
      `rest` the deck at the end. The round is played to the end exactly
      when the player busts, or stays and the dealer reaches 17 before the
      deck runs out; it then prints exactly one verdict, the one the rule
      gives: a busted player leaves the dealer with two cards, which cannot
      bust. A round cut short by the end of the answers or of the deck
      prints nothing. */
  method PlayHand(deck: seq<string>, hits: seq<bool>)
    returns (player: seq<string>, dealer: seq<string>, afterPlayer: seq<string>, rest: seq<string>,
             used: nat, ending: TurnEnd, says: seq<Announcement>, complete: bool)
    requires multiset(deck) == multiset(StandardDeck())
    ensures |deck| == 52 && |player| >= 2 && |dealer| >= 2
    ensures var t := Deal(Table(deck, [], []));
            PlayerTurnResult(t.player, t.deck, hits, player, afterPlayer, used, ending)
    ensures var t := Deal(Table(deck, [], []));
            ending == Stayed ==> DealerTurnResult(t.dealer, afterPlayer, dealer, rest, !complete)
    ensures ending != Stayed ==> dealer == Deal(Table(deck, [], [])).dealer && rest == afterPlayer
    ensures complete <==> ending == BustedOut || (ending == Stayed && Total(dealer) >= 17)
    ensures complete ==> says == Winner(player, dealer)
    ensures complete ==> |says| == 1 && Verdict(says[0]) == Classify(player, dealer)
    ensures !complete ==> says == []
  {
    assert |deck| == 52 by {
      assert |multiset(deck)| == |multiset(StandardDeck())|;
    }
    var t := Deal(Table(deck, [], []));
    player, afterPlayer, used, ending := PlayerTurn(t.player, t.deck, hits);
    dealer, rest := t.dealer, afterPlayer;
    says, complete := [], false;
    if ending == BustedOut {
      assert forall i :: 0 <= i < 2 ==> Standard(dealer[i]) by {
        assert dealer[0] in multiset(deck) && dealer[1] in multiset(deck);
      }
      TwoCardsNeverBust(dealer);
      says, complete := Winner(player, dealer), true;
      WinnerAgreesWithClassify(player, dealer);
    } else if ending == Stayed {
      var exhausted;
      dealer, rest, exhausted := DealerTurn(dealer, afterPlayer);
      if !exhausted {
        assert !Busted(player);
        says, complete := Winner(player, dealer), true;
        WinnerAgreesWithClassify(player, dealer);
      }
    }
  }
}
