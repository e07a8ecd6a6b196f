/** The round and match state machine of lesson5/ttt.rb (`TTTGame`): turns
    alternate, a round ends once someone has won or the board is full, a
    decided round adds one to the winner's score, and the match ends when a
    score reaches five. */
module TttGame {
  import opened Options
  import opened TttBoard
  import opened TttComputer

  /** The threshold tested in `TTTGame#play`. */
  const WinningScore: nat := 5

  datatype Scores = Scores(human: nat, computer: nat)

  /** The state `TTTGame` keeps between moves: the board, `@current_marker`,
      `@first_marker` and the two scores. */
  datatype Game = Game(board: Board, current: Marker, first: Marker, scores: Scores)

  /** `TTTGame#human_turn?` */
  predicate HumanTurn(g: Game)
  {
    g.current == Human
  }

  predicate IsPlayer(m: Marker)
  {
    m == Human || m == Computer
  }

  function Opponent(m: Marker): Marker
  {
    if m == Human then Computer else Human
  }

  /** The loop of `main_game_loop` breaks on this. */
  predicate RoundOver(b: Board)
  {
    SomeoneWon(b) || Full(b)
  }

  /** How many squares hold `m`. */
  function MarkCount(b: Board, m: Marker): nat
  {
    multiset(b)[m]
  }

  /** The turn invariant of alternating play: when the first mover is to
      move both have marked equally often, otherwise the first mover has
      marked once more. */
  predicate Alternating(g: Game)
  {
    && IsPlayer(g.first) && IsPlayer(g.current)
    && if g.current == g.first
       then MarkCount(g.board, g.first) == MarkCount(g.board, Opponent(g.first))
       else MarkCount(g.board, g.first) == MarkCount(g.board, Opponent(g.first)) + 1
  }

  /** Every square marked in `b` keeps its marker in `b'`. */
  predicate KeepsMarks(b: Board, b': Board)
  {
    forall k: Key :: !Unmarked(b, k) ==> At(b', k) == At(b, k)
  }

  /** Marking one unmarked square raises the count of that marker by one
      and leaves the counts of the other markers alone. */
  lemma MarkCountAfterSet(b: Board, k: Key, m: Marker, x: Marker)
    requires Unmarked(b, k) && m != Empty && x != Empty
    ensures MarkCount(Set(b, k, m), x) == MarkCount(b, x) + (if x == m then 1 else 0)
  {
    var i := k - 1;
    assert b == b[..i] + [b[i]] + b[i + 1..];
    assert Set(b, k, m) == b[..i] + [m] + b[i + 1..];
  }

  /** `TTTGame#current_player_moves`: the player to move marks a square and
      the turn passes to the other player. `square` is the human's validated
      choice and `draw` the computer's random number; each is used only on
      its owner's turn. */
  function CurrentPlayerMoves(g: Game, square: int, draw: nat): (r: Game)
    requires !Full(g.board)
    requires HumanTurn(g) ==> 1 <= square <= 9 && Unmarked(g.board, square)
    ensures r.current == (if HumanTurn(g) then Computer else Human)
    ensures HumanTurn(g) ==> r.board == Set(g.board, square, Human)
    ensures !HumanTurn(g) ==> r.board == Set(g.board, ComputerSquare(g.board, draw), Computer)
    ensures r.first == g.first && r.scores == g.scores
  {
    if HumanTurn(g) then
      g.(board := Set(g.board, square, Human), current := Computer)
    else
      g.(board := ComputerMoves(g.board, draw), current := Human)
  }

  /** A move keeps the turn invariant and never overwrites a mark. */
  lemma MoveKeepsAlternating(g: Game, square: int, draw: nat)
    requires Alternating(g) && !Full(g.board)
    requires HumanTurn(g) ==> 1 <= square <= 9 && Unmarked(g.board, square)
    ensures Alternating(CurrentPlayerMoves(g, square, draw))
    ensures KeepsMarks(g.board, CurrentPlayerMoves(g, square, draw).board)
  {
    var k: Key := if HumanTurn(g) then square else ComputerSquare(g.board, draw);
    var m := if HumanTurn(g) then Human else Computer;
    assert m == g.current;
    MarkCountAfterSet(g.board, k, m, Human);
    MarkCountAfterSet(g.board, k, m, Computer);
  }

  /** A single mark on a board nobody has won can win only for the marker
      placed. */
  lemma OneMarkWinsOnlyForMover(b: Board, k: Key, m: Marker)
    requires !SomeoneWon(b) && m != Empty
    ensures WinningMarker(Set(b, k, m)) == None || WinningMarker(Set(b, k, m)) == Some(m)
  {
    var b' := Set(b, k, m);
    var r := WinningMarker(b');
    if r.Some? {
      var j :| FirstWonLine(b', j) && r.value == At(b', WinningLines[j].p);
      NewlyWonLineHoldsMark(b, WinningLines[j], m, k);
    }
  }

  /** Where a run of moves stands: the game and how many entries and
      draws have been read. */
  datatype Run = Run(game: Game, read: nat, drawn: nat)

  /** The moves of `main_game_loop` from `g`, with the entries from `read`
      and the draws from `drawn` still unread: while the round is not
      decided, the human's next entry is marked if it names an unmarked
      square and skipped otherwise, and on the computer's turn the next
      draw chooses `computer_moves`' square. The run stops once the round
      is decided or the stream of the player to move is used up. */
  function Steps(g: Game, entries: seq<int>, draws: seq<nat>, read: nat, drawn: nat): Run
    requires read <= |entries| && drawn <= |draws|
    decreases |entries| - read + |draws| - drawn
  {
    if RoundOver(g.board) then Run(g, read, drawn)
    else if HumanTurn(g) then
      if read == |entries| then Run(g, read, drawn)
      else if 1 <= entries[read] <= 9 && Unmarked(g.board, entries[read]) then
        Steps(CurrentPlayerMoves(g, entries[read], 0), entries, draws, read + 1, drawn)
      else
        Steps(g, entries, draws, read + 1, drawn)
    else if drawn == |draws| then Run(g, read, drawn)
    else Steps(CurrentPlayerMoves(g, 0, draws[drawn]), entries, draws, read, drawn + 1)
  }

  /** Two different squares holding `m` make its count at least two. */
  lemma TwoSquaresCount(b: Board, i: Key, j: Key, m: Marker)
    requires i < j && At(b, i) == m && At(b, j) == m
    ensures MarkCount(b, m) >= 2
  {
    var front := b[..j - 1];
    assert b == front + [b[j - 1]] + b[j..];
    assert front[i - 1] == m;
    assert multiset(front)[m] >= 1;
  }

  /** A line holding `m` twice puts at least two `m` marks on the board. */
  lemma PairOnLineCount(b: Board, l: Line, m: Marker)
    requires l.p < l.q < l.s
    requires CountOn(b, l, m) >= 2
    ensures MarkCount(b, m) >= 2
  {
    if At(b, l.p) == m && At(b, l.q) == m {
      TwoSquaresCount(b, l.p, l.q, m);
    } else if At(b, l.p) == m {
      TwoSquaresCount(b, l.p, l.s, m);
    } else {
      TwoSquaresCount(b, l.q, l.s, m);
    }
  }

  /** With at most one human mark on the board no line holds two, so
      `detect_threat` answers `nil`. */
  lemma FewHumanMarksNoThreat(b: Board)
    requires MarkCount(b, Human) <= 1
    ensures DetectThreat(b).None?
  {
    WinningLinesDistinct();
    forall j | 0 <= j < |WinningLines|
      ensures CountOn(b, WinningLines[j], Human) != 2
    {
      if CountOn(b, WinningLines[j], Human) == 2 {
        PairOnLineCount(b, WinningLines[j], Human);
      }
    }
    assert FirstPairFrom(b, Human, 0).None?;
  }

  /** The board invariant of a round in play: turns alternate, and once
      the computer has marked a square the centre is taken (by its first
      mark, or earlier by the human). */
  predicate InPlay(g: Game)
  {
    && Alternating(g)
    && (MarkCount(g.board, Computer) >= 1 ==> !Unmarked(g.board, 5))
  }

  /** A round starts in play. */
  lemma ResetRoundInPlay(g: Game)
    requires IsPlayer(g.first)
    ensures InPlay(ResetRound(g))
  {
    assert MarkCount(Reset(), Computer) == 0;
  }

  /** Every move keeps a round in play. */
  lemma MoveKeepsInPlay(g: Game, square: int, draw: nat)
    requires InPlay(g) && !Full(g.board)
    requires HumanTurn(g) ==> 1 <= square <= 9 && Unmarked(g.board, square)
    ensures InPlay(CurrentPlayerMoves(g, square, draw))
  {
    MoveKeepsAlternating(g, square, draw);
    var k: Key := if HumanTurn(g) then square else ComputerSquare(g.board, draw);
    var m := if HumanTurn(g) then Human else Computer;
    MarkCountAfterSet(g.board, k, m, Computer);
  }

  /** In play, testing the centre before the block never changes the
      computer's square: the centre is free only while the computer has no
      mark, and then the human has at most one, so there is no threat to
      block. */
  lemma CentreFirstChangesNothing(g: Game, draw: nat)
    requires InPlay(g) && !HumanTurn(g) && !Full(g.board)
    ensures ComputerSquare(g.board, draw) == TextbookSquare(g.board, draw)
  {
    if Unmarked(g.board, 5) {
      FewHumanMarksNoThreat(g.board);
    }
  }

  /** A run of moves keeps a round in play, so every computer move made
      by `Steps` is the textbook square. */
  lemma {:induction false} StepsKeepInPlay(g: Game, entries: seq<int>, draws: seq<nat>, read: nat, drawn: nat)
    requires read <= |entries| && drawn <= |draws|
    requires InPlay(g)
    ensures InPlay(Steps(g, entries, draws, read, drawn).game)
    decreases |entries| - read + |draws| - drawn
  {
    if RoundOver(g.board) {
    } else if HumanTurn(g) {
      if read == |entries| {
      } else if 1 <= entries[read] <= 9 && Unmarked(g.board, entries[read]) {
        MoveKeepsInPlay(g, entries[read], 0);
        StepsKeepInPlay(CurrentPlayerMoves(g, entries[read], 0), entries, draws, read + 1, drawn);
      } else {
        StepsKeepInPlay(g, entries, draws, read + 1, drawn);
      }
    } else if drawn < |draws| {
      MoveKeepsInPlay(g, 0, draws[drawn]);
      StepsKeepInPlay(CurrentPlayerMoves(g, 0, draws[drawn]), entries, draws, read, drawn + 1);
    }
  }

  /** `TTTGame#main_game_loop`: moves until the round is decided. The
      human's console entries and the computer's random draws are two
      streams; an entry that is not an unmarked key is rejected and the
      next one read, as `human_moves` re-prompts. The loop stops early only
      when the stream of the player to move runs out. The moves made are
      those of `Steps`. A decided round was decided by its last move:
      `previous` is the board before that move, still undecided, and `last`
      the square the mover then marked. */
  method MainGameLoop(g: Game, entries: seq<int>, draws: seq<nat>)
    returns (r: Game, decided: bool, read: nat, drawn: nat, previous: Board, last: Key)
    requires Alternating(g) && !RoundOver(g.board)
    ensures Run(r, read, drawn) == Steps(g, entries, draws, 0, 0)
    ensures decided <==> RoundOver(r.board)
    ensures !decided ==> (HumanTurn(r) && read == |entries|) || (!HumanTurn(r) && drawn == |draws|)
    ensures read <= |entries| && drawn <= |draws|
    ensures Alternating(r)
    ensures KeepsMarks(g.board, r.board)
    ensures r.first == g.first && r.scores == g.scores
    ensures decided ==> && !RoundOver(previous) && Unmarked(previous, last)
                        && KeepsMarks(g.board, previous)
                        && r.board == Set(previous, last, Opponent(r.current))
  {
    r, decided, read, drawn := g, false, 0, 0;
    previous, last := g.board, 1;
    while !decided && (if HumanTurn(r) then read < |entries| else drawn < |draws|)
      invariant read <= |entries| && drawn <= |draws|
      invariant Steps(r, entries, draws, read, drawn) == Steps(g, entries, draws, 0, 0)
      invariant decided <==> RoundOver(r.board)
      invariant Alternating(r)
      invariant KeepsMarks(g.board, r.board)
      invariant r.first == g.first && r.scores == g.scores
      invariant decided ==> && !RoundOver(previous) && Unmarked(previous, last)
                            && KeepsMarks(g.board, previous)
                            && r.board == Set(previous, last, Opponent(r.current))
      decreases |entries| - read + |draws| - drawn
    {
      if HumanTurn(r) {
        var n := entries[read];
        read := read + 1;
        if 1 <= n <= 9 && Unmarked(r.board, n) {
          MoveKeepsAlternating(r, n, 0);
          previous, last := r.board, n;
          r := CurrentPlayerMoves(r, n, 0);
          decided := RoundOver(r.board);
        }
      } else {
        var d := draws[drawn];
        drawn := drawn + 1;
        MoveKeepsAlternating(r, 0, d);
        previous, last := r.board, ComputerSquare(r.board, d);
        r := CurrentPlayerMoves(r, 0, d);
        decided := RoundOver(r.board);
      }
    }
  }

  /** The scoring step of `TTTGame#score`: a won round adds one to the
      winner's score, a tie adds nothing. */
  function ScoreRound(s: Scores, winner: Option<Marker>): (r: Scores)
    ensures winner == Some(Human) ==> r == Scores(s.human + 1, s.computer)
    ensures winner == Some(Computer) ==> r == Scores(s.human, s.computer + 1)
    ensures winner.None? ==> r == s
  {
    match winner
    case Some(Human) => s.(human := s.human + 1)
    case Some(Computer) => s.(computer := s.computer + 1)
    case _ => s
  }

  /** The break test of the round loop in `TTTGame#play`. */
  predicate MatchOver(s: Scores)
  {
    s.human == WinningScore || s.computer == WinningScore
  }

  /** Rounds of `outcomes` won by `m`. */
  function Wins(outcomes: seq<Option<Marker>>, m: Marker): nat
  {
    if outcomes == [] then 0
    else Wins(outcomes[..|outcomes| - 1], m) + (if outcomes[|outcomes| - 1] == Some(m) then 1 else 0)
  }

  /** The tally after the given rounds, starting from `score_reset`. */
  function Tally(outcomes: seq<Option<Marker>>): Scores
  {
    Scores(Wins(outcomes, Human), Wins(outcomes, Computer))
  }

  /** The round loop of `TTTGame#play`, fed the winning markers of decided
      rounds: it scores each and stops right after the first round that
      brings a score to five. Each score is the number of rounds its player
      won; no earlier round ended the match; the threshold is never
      overshot. */
  method PlayMatch(outcomes: seq<Option<Marker>>) returns (s: Scores, rounds: nat)
    ensures rounds <= |outcomes|
    ensures s == Tally(outcomes[..rounds])
    ensures s.human <= WinningScore && s.computer <= WinningScore
    ensures forall n :: 0 <= n < rounds ==> !MatchOver(Tally(outcomes[..n]))
    ensures rounds < |outcomes| ==> MatchOver(s)
  {
    s, rounds := Scores(0, 0), 0;
    while rounds < |outcomes| && !MatchOver(s)
      invariant rounds <= |outcomes|
      invariant s == Tally(outcomes[..rounds])
      invariant s.human <= WinningScore && s.computer <= WinningScore
      invariant forall n :: 0 <= n < rounds ==> !MatchOver(Tally(outcomes[..n]))
    {
      assert outcomes[..rounds + 1][..rounds] == outcomes[..rounds];
      s := ScoreRound(s, outcomes[rounds]);
      rounds := rounds + 1;
    }
  }

  /** `TTTGame#reset`: a fresh board and the first mover to move again. */
  function ResetRound(g: Game): (r: Game)
    requires IsPlayer(g.first)
    ensures forall k: Key :: Unmarked(r.board, k)
    ensures r.current == r.first == g.first && r.scores == g.scores
    ensures Alternating(r) && !RoundOver(r.board)
  {
    ResetBoardUndecided();
    assert MarkCount(Reset(), Human) == 0 && MarkCount(Reset(), Computer) == 0;
    g.(board := Reset(), current := g.first)
  }

  /** `TTTGame#score_reset` */
  function ScoreReset(g: Game): (r: Game)
    ensures r.scores.human == 0 && r.scores.computer == 0
    ensures r.board == g.board && r.current == g.current && r.first == g.first
  {
    g.(scores := Scores(0, 0))
  }

  /** The scoring step applied to a decided round: a round with no
      winner was decided by a full board. */
  function ScoreDecidedRound(g: Game): (r: Game)
    requires RoundOver(g.board)
    ensures r.board == g.board && r.current == g.current && r.first == g.first
    ensures r.scores == ScoreRound(g.scores, WinningMarker(g.board))
    ensures WinningMarker(g.board).None? ==> Full(g.board)
  {
    g.(scores := ScoreRound(g.scores, WinningMarker(g.board)))
  }

  /** One round of `TTTGame#play` from a reset board: the moves of
      `main_game_loop` (`Steps` from `ResetRound(g)`), then the scoring
      step once the round is decided. The round is decided exactly when
      those moves decide it, and otherwise the stream of the player to move
      ran out. A won round raises exactly the winner's score by one, and
      the winner is the player who moved last; a tie, reached only on a
      full board, raises neither. */
  method PlayRound(g: Game, entries: seq<int>, draws: seq<nat>)
    returns (r: Game, decided: bool, read: nat, drawn: nat)
    requires IsPlayer(g.first)
    ensures var s := Steps(ResetRound(g), entries, draws, 0, 0);
            && read == s.read && drawn == s.drawn
            && (decided <==> RoundOver(s.game.board))
            && r == (if decided then ScoreDecidedRound(s.game) else s.game)
    ensures !decided ==> (HumanTurn(r) && read == |entries|) || (!HumanTurn(r) && drawn == |draws|)
    ensures decided ==> RoundOver(r.board)
    ensures decided ==> r.scores == ScoreRound(g.scores, WinningMarker(r.board))
    ensures decided && WinningMarker(r.board).None? ==> Full(r.board)
    ensures decided ==> WinningMarker(r.board) == None || WinningMarker(r.board) == Some(Opponent(r.current))
    ensures !decided ==> r.scores == g.scores
    ensures Alternating(r) && r.first == g.first
  {
    var start := ResetRound(g);
    var previous, last;
    r, decided, read, drawn, previous, last := MainGameLoop(start, entries, draws);
    if decided {
      OneMarkWinsOnlyForMover(previous, last, Opponent(r.current));
      r := ScoreDecidedRound(r);
    }
  }
}
