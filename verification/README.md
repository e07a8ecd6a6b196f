# Console games: verified game logic

This is a Dafny model of the game logic in three Ruby console games, with proofs about it:

- **Tic-tac-toe** (`lesson5/ttt.rb`). It covers:
  - the nine-square board;
  - the table of eight winning lines and win detection;
  - the computer opponent's two "two in a line" scanners and its move priority: win, then centre, then block, then random;
  - alternating turns within a round;
  - scoring of a decided round and the first-to-five match;
  - the `joinor` prompt formatter.
- **Rock, paper, scissors, lizard, Spock** (`oo_rps/rps.rb`). It covers:
  - the `WINNING_MOVES` and `LOSING_MOVES` tables and the `>` relation;
  - the history of the human's winning moves and the computer's counter move `which_move`;
  - `Computer#choose`;
  - round scoring and the first-to-three match.
- **Twenty-one** (`lesson5/21.rb`). It covers:
  - reading a card string such as `"10 of Spades"`;
  - the hand total and the bust test;
  - the 52-card deck and the deal from the deck's end;
  - the dealer's draw-to-17 rule and the unused `ace_value`;
  - the lines `winner` prints.

Modules:

| file | module | content |
|---|---|---|
| `common.dfy` | `Options`, `Choice`, `Chars` | `Option` for Ruby's `nil`; `Sample`, the model of `Array#sample`; `IsDigit` |
| `ttt_board.dfy` | `TttBoard` | `Board` and `Square` |
| `ttt_computer.dfy` | `TttComputer` | `computer_moves` and its tactical properties |
| `ttt_game.dfy` | `TttGame` | turns, rounds, scores and the match of `TTTGame` |
| `ttt_joinor.dfy` | `TttJoinOr` | `joinor`, as written and corrected |
| `rps.dfy` | `Rps` | all of the rock-paper-scissors logic |
| `twentyone.dfy` | `TwentyOne` | all of the twenty-one logic |

The model's conventions:

- **Randomness.** Every random draw (`sample`) is a natural number supplied by the caller. It is reduced modulo the length of the list, so any element can be drawn and nothing else can (`Choice.Sample`, `Choice.SampleAt`). The move loop (`TttGame.Steps`) takes one draw for every computer move, although the source calls `sample` only when no scan answers; such a draw is simply unused, so the draws count computer moves, not calls to `sample`.
- **Shuffling.** `shuffle!` is any permutation of the fresh deck.
- **Console input.** Human input is a sequence of already-read answers.
- **Markers.** Tic-tac-toe markers are the abstract values `Empty`, `Human` and `Computer`. The human's marker is taken to be one character other than `'O'` and `' '`. Under that assumption, the regex `/[^O ]/` in `detect_threat` matches exactly the human's squares.

## Model

| member | source | states |
|---|---|---|
| TttBoard.Unmarked | lesson5/ttt.rb:111-113 | a square is unmarked iff it holds the initial blank marker; `UnmarkedKeys` and `Full` are stated through it |
| TttBoard.Reset | lesson5/ttt.rb:67-69 | after `reset` all nine squares are unmarked |
| TttBoard.Set | lesson5/ttt.rb:11-13 | `board[k] = m` gives square `k` the marker `m` and leaves every other square as it was; it does not check that `k` was unmarked |
| TttBoard.UnmarkedKeys | lesson5/ttt.rb:15-17 | a key is listed iff its square is unmarked, and the list is strictly ascending |
| TttBoard.Full | lesson5/ttt.rb:19-21 | `full?` holds iff no square is unmarked |
| TttBoard.MarkedOnly | lesson5/ttt.rb:92 | selecting the marked squares keeps every non-blank marker as often as it occurs and drops every blank; a list without blanks is kept whole |
| TttBoard.ThreeIdenticalMarkers | lesson5/ttt.rb:91-95 | true iff all three markers are the same non-blank marker; a line with a blank square never qualifies |
| TttBoard.WinningMarker | lesson5/ttt.rb:27-35 | `nil` iff no line of the table is won; otherwise the non-blank marker of the first won line in table order |
| TttBoard.SomeoneWon | lesson5/ttt.rb:23-25 | true iff some line of the table is won |
| TttBoard.CountOn | lesson5/ttt.rb:56-58 | the number of the line's three squares holding the marker, so at most 3; `PairLineCompletes` shows a count of 2 plus the third square makes the line won |
| TttBoard.FirstUnmarkedOn | lesson5/ttt.rb:59-61 | the smallest unmarked key on the line, and `nil` iff all three squares are marked |
| TttBoard.FirstPairFrom | lesson5/ttt.rb:55-58 | the index of the first line in table order holding the marker exactly twice; `nil` iff there is none |
| TttBoard.PairScan | lesson5/ttt.rb:54-65 | the answer is an unmarked key, the smallest one, on the first line holding the marker twice; it is `nil` iff that line is filled or no such line exists |
| TttBoard.AttackToWin | lesson5/ttt.rb:54-65 | the scan for two computer marks, with the contract of `PairScan` |
| TttBoard.WinningLinesDistinct | lesson5/ttt.rb:2-4 | the table holds eight lines, each naming three different squares in increasing order, and no line twice |
| TttBoard.DetectThreat | lesson5/ttt.rb:37-48 | the scan for two human marks, with the contract of `PairScan` |
| TttBoard.AttackSqFive | lesson5/ttt.rb:50-52 | 5 exactly when square 5 is unmarked, else `nil` |
| TttBoard.OneLineOnEmptyBoard | lesson5/ttt.rb:2-4 | marking the three squares of any winning line on an empty board wins for that marker |
| TttBoard.TwoOfLineOnEmptyBoard | lesson5/ttt.rb:2-4 | marking two squares of a winning line on an empty board wins for nobody |
| TttBoard.ResetBoardUndecided | lesson5/ttt.rb:67-69 | a reset board is neither won nor full |
| TttBoard.TopRowExample | lesson5/ttt.rb:27-35 | X on 1, 2 and 3 with O on 4 is won by X |
| TttBoard.DrawExample | lesson5/ttt.rb:19-35 | the full board X O X / X O O / O X X is won by nobody |
| TttComputer.ComputerSquare | lesson5/ttt.rb:262-272 | the computer's square is always unmarked; it is the attack answer if there is one, else 5 if free, else the block answer if there is one |
| TttComputer.ComputerMoves | lesson5/ttt.rb:262-272 | the computer marks exactly one previously unmarked square and changes nothing else |
| TttComputer.PairCompletionWins | lesson5/ttt.rb:54-65 | on an undecided board, marking the square a scan for `m` answers wins the round for `m` |
| TttComputer.ComputerTakesOpenWin | lesson5/ttt.rb:263-264 | when `attack_to_win` answers, the computer's move wins the round |
| TttComputer.ComputerBlocksThreat | lesson5/ttt.rb:267-268 | with no attack answer and the centre taken, the computer marks the square on which the human would have won |
| TttComputer.CentreLeavesThreatOpen | lesson5/ttt.rb:265-268 | what the test order alone would do: on a board with X on 1 and 2 and O on 9 but a free centre, the computer takes 5 and X then wins on 3; the board cannot arise in play (see `TttGame.CentreFirstChangesNothing`) |
| TttComputer.TextbookSquare | lesson5/ttt.rb:262-272 | the same rules in the textbook order (win, block, centre, random), for comparison: an unmarked square that is the attack answer if any, else the block answer if any, else 5 if free |
| TttComputer.AttackStopsAtFirstPairLine | lesson5/ttt.rb:54-65 | the scan stops at the first line holding two computer marks even when it is filled, and so misses a win on a later line |
| TttComputer.ScansFindNothingOnEmptyBoard | lesson5/ttt.rb:37-65 | on an empty board neither scan answers |
| TttGame.HumanTurn | lesson5/ttt.rb:324-326 | it is the human's turn iff the current marker is the human's; `CurrentPlayerMoves` shows the turn passing to the other player after each move |
| TttGame.RoundOver | lesson5/ttt.rb:182 | the loop's break test: someone has won or the board is full; `MainGameLoop` shows it is first met by the round's last move |
| TttGame.MarkCountAfterSet | lesson5/ttt.rb:11-13 | marking an unmarked square adds one to that marker's count and leaves the other counts alone |
| TttGame.CurrentPlayerMoves | lesson5/ttt.rb:328-336 | the player to move marks a square and the turn passes to the other player; the first mover and the scores are unchanged |
| TttGame.MoveKeepsAlternating | lesson5/ttt.rb:328-336 | each move keeps the mark counts alternating (equal when the first mover is to move, one ahead otherwise) and never overwrites a mark |
| TttGame.Steps | lesson5/ttt.rb:179-185 | the reference for the move loop: while the round is undecided, the human's next entry is marked if it names an unmarked square and skipped otherwise, and the computer marks the square `computer_moves` chooses with the next draw |
| TttGame.MainGameLoop | lesson5/ttt.rb:179-185 | the moves made and the entries and draws read are those of `Steps`; the loop ends exactly when someone has won or the board is full, unless input runs out, and a decided round was decided by its last move: the board before it was undecided and that move marked one of its unmarked squares; turns alternate and no mark is overwritten |
| TttGame.OneMarkWinsOnlyForMover | lesson5/ttt.rb:27-35 | one mark on a board nobody has won can only make the marker placed the winning marker |
| TttGame.ScoreRound | lesson5/ttt.rb:274-278 | a human win adds one to the human's score only, a computer win to the computer's only, a tie to neither |
| TttGame.MatchOver | lesson5/ttt.rb:168 | the match ends when either score is 5; `PlayMatch` shows it is first met right after the round that brings a score to 5 |
| TttGame.ScoreDecidedRound | lesson5/ttt.rb:274-278 | scoring a decided round uses its winning marker, and a round without one was decided by a full board |
| TttGame.PlayRound | lesson5/ttt.rb:162-169 | the round is `Steps` from a reset board followed by the scoring step, and it is decided exactly when those moves decide it, otherwise the stream of the player to move ran out; a decided round raises exactly the winner's score by one, and the winner can only be the player who moved last; a tie, reached only on a full board, raises neither |
| TttGame.PlayMatch | lesson5/ttt.rb:161-171 | each score is the number of rounds its player won; the match stops right after the first round that brings a score to 5, never before, and no score passes 5 |
| TttGame.ResetRound | lesson5/ttt.rb:308-312 | a fresh board with the first mover to move, scores unchanged |
| TttGame.ResetRoundInPlay | lesson5/ttt.rb:308-312 | a reset round satisfies the in-play invariant: alternating counts, and the centre is taken once the computer has a mark |
| TttGame.MoveKeepsInPlay | lesson5/ttt.rb:262-272 | every move keeps that invariant: a computer mark goes to the centre while it is free |
| TttGame.StepsKeepInPlay | lesson5/ttt.rb:179-185 | the move loop keeps that invariant for any entries and draws |
| TttGame.FewHumanMarksNoThreat | lesson5/ttt.rb:267-268 | with at most one human mark on the board `detect_threat` answers `nil` |
| TttGame.CentreFirstChangesNothing | lesson5/ttt.rb:262-272 | in play, testing the centre before the block never changes the computer's square: it equals the textbook order's square |
| TttGame.ScoreReset | lesson5/ttt.rb:314-317 | both scores become 0 and nothing else changes |
| TttJoinOr.JoinOr | lesson5/ttt.rb:239-248 | as written: `''`, the sole element, `"a or b"`, and for three or more the first elements joined by the delimiter, then the delimiter, a space, the word, a space and the last element |
| TttJoinOr.JoinOrIntended | lesson5/ttt.rb:244-247 | corrected: the same for up to two elements; for three or more, exactly the delimiter before the word |
| TttJoinOr.JoinSnoc | lesson5/ttt.rb:246 | `join` of one more element appends the delimiter and that element |
| TttJoinOr.JoinOrShortLists | lesson5/ttt.rb:240-243 | `''` for no elements, the element itself for one, `"a or b"` for two |
| TttJoinOr.JoinOrListsKeys | lesson5/ttt.rb:250-251 | the prompt lists exactly the unmarked keys in ascending order: its digits are the key names run together |
| TttJoinOr.JoinOrThreeKeys | lesson5/ttt.rb:244-247 | as written, three keys print as `"1, 2,  or 3"` with two spaces before `or` |
| TttJoinOr.JoinOrIntendedNoDoubleSpace | lesson5/ttt.rb:244-247 | the corrected formatter never prints two spaces in a row when the elements are words |
| TttJoinOr.JoinOrIntendedListsKeys | lesson5/ttt.rb:244-247 | the corrected formatter lists the same keys in the same order |
| Rps.WinningMoves | oo_rps/rps.rb:10-14 | each move beats two different moves, never itself |
| Rps.LosingMoves | oo_rps/rps.rb:36-40 | `LOSING_MOVES` is the inverse of `WINNING_MOVES`: `x` is listed for `m` iff `x` beats `m` |
| Rps.BeatsIrreflexive | oo_rps/rps.rb:16-18 | no move beats itself |
| Rps.ExactlyOneBeats | oo_rps/rps.rb:10-18 | of two different moves exactly one beats the other |
| Rps.BeatsExactlyTwo | oo_rps/rps.rb:10-14 | every move beats exactly two of the five |
| Rps.LosesToExactlyTwo | oo_rps/rps.rb:10-14 | every move loses to exactly two of the five |
| Rps.Beats | oo_rps/rps.rb:16-18 | `a > b` iff `b` is listed for `a` in `WINNING_MOVES`; `ExactlyOneBeats` and `BeatsIrreflexive` show it decides every pair of different moves one way and no move against itself |
| Rps.RecordWin | oo_rps/rps.rb:32-34 | `win?` appends one entry and keeps the earlier ones |
| Rps.Count | oo_rps/rps.rb:43 | `win.count(m)` is at most the history's length and positive iff `m` occurs in the history |
| Rps.TwiceFrom | oo_rps/rps.rb:43 | the select keeps exactly the listed moves that occur twice in the history |
| Rps.Selector | oo_rps/rps.rb:43 | the selector holds exactly the moves that occur twice in the history |
| Rps.WhichMove | oo_rps/rps.rb:42-46 | `false` iff no move occurs exactly twice; otherwise a move that beats one that does |
| Rps.WhichMoveReachesEveryCounter | oo_rps/rps.rb:42-46 | conversely, every move beating a twice-played move is the answer for some pair of draws |
| Rps.ThriceDoesNotQualify | oo_rps/rps.rb:43-44 | an example: on the history `[m, m, m]` no move occurs exactly twice, so `which_move` answers `false` (in general `Selector` keeps only moves counted exactly twice) |
| Rps.Repertoire | oo_rps/rps.rb:90-108 | each computer's list of moves is non-empty, so `sample` always draws a move |
| Rps.ComputerChoose | oo_rps/rps.rb:110-126 | with a twice-won move in the history the computer counters one; otherwise it draws from its own repertoire |
| Rps.Scoring | oo_rps/rps.rb:176-183 | a human win raises only the human's score and records the move; a computer win raises only the computer's; a tie changes nothing |
| Rps.Round | oo_rps/rps.rb:206-210 | one round: the computer chooses from the history it holds before the round, then the round is scored |
| Rps.Play | oo_rps/rps.rb:204-217 | the reference for the match loop: the rounds of the inputs played one after another |
| Rps.RoundGrows | oo_rps/rps.rb:176-183 | a round lowers no score, adds at most one point in all, and grows the history by one entry per point the human gains |
| Rps.PlayedStep | oo_rps/rps.rb:204-217 | one more round played while the match is not over keeps the loop's invariant |
| Rps.MatchOver | oo_rps/rps.rb:213 | the match ends when either score is 3; `GameOrderLoop` shows it is first met right after the round that brings a score to 3 |
| Rps.GameOrderLoop | oo_rps/rps.rb:204-218 | the result is the rounds of the inputs played in order (`Play`), and no earlier state had a score of 3: the loop stops right after the first round that brings a score to 3; no score passes 3, at most one reaches it, and the history grows by one entry per human win |
| Rps.GameWinner | oo_rps/rps.rb:145-151 | the human is named iff the human's score is greater |
| Rps.WinnerReachedMatchPoint | oo_rps/rps.rb:213-216 | at the end of a match the player named is the one whose score is 3 |
| Rps.EndMatch | oo_rps/rps.rb:222-227 | after a match both scores are 0 and the history is kept |
| TwentyOne.FirstWord | lesson5/21.rb:43 | `split[0]`: a word without white space, taken after leading white space; `FirstWordOfCardName` shows it is the value of a card name |
| TwentyOne.ToI | lesson5/21.rb:43 | `to_i` of a word: an optional sign and the leading decimal digits; `DeckCardValue` shows it reads `"2"` to `"10"` as their numbers |
| TwentyOne.CardValue | lesson5/21.rb:37-44 | K, Q and J are worth 10, A is worth 1, any other card `to_i` of its first word; `DeckCardValue` and `StandardCardValue` state what this gives for every deck card |
| TwentyOne.DeckCardValue | lesson5/21.rb:37-44 | a deck card is worth its value's points: 2 to 10 as numbered, K, Q and J 10, A 1 |
| TwentyOne.FirstWordOfCardName | lesson5/21.rb:43 | `split[0]` of `"<value> of <suit>"` is the value |
| TwentyOne.CardNameInjective | lesson5/21.rb:73 | different values or suits give different card names |
| TwentyOne.NewDeck | lesson5/21.rb:69-77 | the nested loops build the reference deck of 52 cards |
| TwentyOne.StandardDeck | lesson5/21.rb:60-77 | 52 cards, suit-major: card `i` is `Values[i % 13]` of `Suits[i / 13]` |
| TwentyOne.StandardDeckDistinct | lesson5/21.rb:69-77 | the 52 card names are pairwise different |
| TwentyOne.StandardCardValue | lesson5/21.rb:34-45 | every deck card is worth 1 to 10, and it is an ace iff it is worth 1 |
| TwentyOne.Total | lesson5/21.rb:34-49 | the sum of the hand's card values; `TotalBounds` bounds it and `HitAddsCardValue` shows each card adds its own value |
| TwentyOne.Busted | lesson5/21.rb:51-53 | `busted?` iff the total is above 21; `TwoCardsNeverBust` shows two deck cards never are |
| TwentyOne.TotalBounds | lesson5/21.rb:34-49 | when every card is worth 1 to 10, `n` cards total between `n` and `10 n` |
| TwentyOne.StandardHandBounds | lesson5/21.rb:34-49 | a hand of deck cards totals between its size and ten times it, aces counting 1 |
| TwentyOne.TwoCardsNeverBust | lesson5/21.rb:51-53 | two deck cards never exceed 21, so `busted?` is false for them |
| TwentyOne.Hit | lesson5/21.rb:2-4 | the card goes on the end of the hand and the rest is kept |
| TwentyOne.HitAddsCardValue | lesson5/21.rb:2-4 | a hit raises the total by exactly the new card's value |
| TwentyOne.AceCount | lesson5/21.rb:7 | the number of aces is positive iff the hand holds an ace |
| TwentyOne.AceValue | lesson5/21.rb:6-13 | ten more iff the hand holds an ace and the value is below 11, else the value |
| TwentyOne.AceValueNeverBusts | lesson5/21.rb:6-13 | the adjustment never lowers a value and never lifts one of at most 21 above 21 |
| TwentyOne.Deal | lesson5/21.rb:21-26 | the last four cards go to player, dealer, player, dealer; the deck loses exactly those four |
| TwentyOne.Reset | lesson5/21.rb:213-217 | the deck is the one `new_deck` builds, 52 pairwise different cards, and both hands are empty |
| TwentyOne.DrawnFromEndPrefix | lesson5/21.rb:219-225 | two draws with `deck.pop` from the same deck agree: the shorter is a prefix of the longer, and equal lengths give equal hands and decks |
| TwentyOne.DealerTurn | lesson5/21.rb:219-225 | the dealer draws from the deck's end, in `pop` order, only while below 17 and stops at 17 or more, unless the deck runs out |
| TwentyOne.DealerTurnResultUnique | lesson5/21.rb:219-225 | the dealer's turn is determined by the hand and the deck: two results that both meet `DealerTurnResult` are equal |
| TwentyOne.PlayerTurn | lesson5/21.rb:188-204 | one card is drawn from the deck's end for each `hit` answer read, each at a total of at most 21; the turn ends on the first `stay`, on a bust, when the answers run out, or on a `hit` meeting an empty deck, and the answers read are the cards drawn plus the one that ended the turn |
| TwentyOne.PlayerTurnResultUnique | lesson5/21.rb:188-204 | the player's turn is determined by the hand, the deck and the answers: two results that both meet `PlayerTurnResult` are equal |
| TwentyOne.WinnerAgreesWithClassify | lesson5/21.rb:164-186 | unless both hands are busted, `winner` prints exactly one line, and it names the winner the bust-then-higher-total rule gives |
| TwentyOne.BothBustedAnnouncesBoth | lesson5/21.rb:164-186 | with both hands busted, `winner` would print both a player win and a dealer win |
| TwentyOne.PlayerWonSays | lesson5/21.rb:172-178 | prints the dealer-busted line if the dealer busted, else the player-won line if the player has more and has not busted, else nothing |
| TwentyOne.DealerWonSays | lesson5/21.rb:180-186 | prints the player-busted line if the player busted, else the dealer-won line if the dealer has more and has not busted, else nothing |
| TwentyOne.Winner | lesson5/21.rb:164-170 | both predicates print and return `nil`, so both run, then the push line if the totals are equal; `WinnerAgreesWithClassify` shows one line is printed unless both hands bust |
| TwentyOne.PlayHand | lesson5/21.rb:147-155 | after the deal the player's turn and then, only after a stay, the dealer's turn are played; the round is complete exactly when the player busts or stays and the dealer reaches 17; a complete round prints exactly one verdict, the rule's, and an incomplete one prints nothing |

## Left out

- Console I/O and screen control are left out: `puts`, `gets`, `system 'clear'`, `sleep`, `Board#draw`, the `display_*` methods, names, marker choice, `who_moves_first` and `play_again?`. The human's choices are parameters of the model.
- Random number generation is left out. Draws are parameters, and `shuffle!` is any permutation.
- The top-level launchers are left out. `lesson3/2.rb` is not part of this model.
- ttt.rb increments scores as a side effect of displaying the board (`score` is called from `display_board`). The model has one scoring step per decided round instead.
- The text of the human-move loop in ttt.rb is left out. `MainGameLoop` skips an entry that is not an unmarked key; the source re-prompts in the same situation.
- Degenerate human markers are left out: an empty string, `'O'` and `' '` are all accepted by `pick_a_marker`.
- Behaviour that departs from the usual textbook strategy is modelled as the code has it:
  - `computer_moves` tests the centre before the block. In play this never changes the square chosen (`TttGame.CentreFirstChangesNothing`); only the order of the tests departs.
  - A scan stops at the first line holding two marks even when that line's third square is taken.
  - `Board#[]=` overwrites without returning an error. The model proves instead that every caller writes only unmarked squares.
- TwentyOne.ToI: `String#to_i` is modelled without its underscore digit separators. No card string contains one.
- TwentyOne.Total: it requires a non-empty hand, because `inject` on an empty hand gives `nil`.
- TwentyOne.Deal: it requires four cards in the deck, because `pop` on an empty deck gives `nil`.
- TwentyOne.DealerTurn: it reports running out of cards as `exhausted` instead of modelling the failure that follows a `nil` card. The model does not prove that 52 cards always suffice.
- TwentyOne.PlayerTurn: answers other than `hit` and `stay` are re-prompted by the source and are not part of the input sequence. Running out of answers ends the turn as `OutOfInput`.
- TwentyOne.PlayerTurn: a `hit` on an empty deck ends the turn as `OutOfCards`. The source appends the `nil` that `pop` returns and fails on the next `total`, at `card[0]`. The failure itself is not modelled.
- Rps.GameOrderLoop: the match loop stops early when the input sequence runs out.
- Rps.WhichMove: the model states which moves can be drawn, not how likely each is. The selector lists every twice-won move exactly twice, in the source and in the model alike, so the odds are even among them.

## Findings

| source | as written | input that shows it | evidently intended | confidence | as-written member | corrected member |
|---|---|---|---|---|---|---|
| lesson5/ttt.rb:244-247 | with three or more elements the last one becomes `" or 3"` and is then joined with `", "`, so two spaces stand before `or` | unmarked keys `[1, 2, 3]` give `"1, 2,  or 3"` | `"1, 2, or 3"`: the last element becomes `"or 3"` | high for the output; not executed | TttJoinOr.JoinOrThreeKeys | TttJoinOr.JoinOrIntendedNoDoubleSpace |
