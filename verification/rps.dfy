/** Rock, paper, scissors, lizard, Spock from oo_rps/rps.rb: the "beats"
    table and its inverse, the computer's history-based counter move, round
    scoring and the first-to-three match. */
module Rps {
  import opened Options
  import opened Choice

  datatype Move = Rock | Paper | Scissors | Lizard | Spock

  /** `Move::VALUES` */
  const Values: seq<Move> := [Rock, Paper, Scissors, Lizard, Spock]

  /** `Move::WINNING_MOVES[m]`: the two moves `m` beats, never `m` itself. */
  function WinningMoves(m: Move): (r: seq<Move>)
    ensures |r| == 2 && r[0] != r[1] && m !in r
  {
    match m
    case Rock => [Scissors, Lizard]
    case Paper => [Rock, Spock]
    case Scissors => [Paper, Lizard]
    case Spock => [Rock, Scissors]
    case Lizard => [Spock, Paper]
  }

  /** `Move#>` */
  predicate Beats(a: Move, b: Move)
  {
    b in WinningMoves(a)
  }

  /** `History::LOSING_MOVES[m]`: exactly the moves that beat `m`, so the
      table is the inverse of `WINNING_MOVES`. */
  function LosingMoves(m: Move): (r: seq<Move>)
    ensures |r| == 2 && r[0] != r[1]
    ensures forall x :: x in r <==> m in WinningMoves(x)
  {
    match m
    case Rock => [Spock, Paper]
    case Paper => [Scissors, Lizard]
    case Scissors => [Rock, Spock]
    case Lizard => [Rock, Scissors]
    case Spock => [Paper, Lizard]
  }

  /** No move beats itself. */
  lemma BeatsIrreflexive(m: Move)
    ensures !Beats(m, m)
  {
  }

  /** Of two different moves exactly one beats the other. */
  lemma ExactlyOneBeats(a: Move, b: Move)
    requires a != b
    ensures Beats(a, b) || Beats(b, a)
    ensures !(Beats(a, b) && Beats(b, a))
  {
  }

  /** Every move is one of `Values`. */
  lemma ValuesComplete(x: Move)
    ensures x in Values
  {
  }

  /** Every move beats exactly two of the five moves. */
  lemma BeatsExactlyTwo(m: Move)
    ensures |set x | x in Values && Beats(m, x)| == 2
  {
    var w := WinningMoves(m);
    var beaten := set x | x in Values && Beats(m, x);
    forall x
      ensures x in beaten <==> x in {w[0], w[1]}
    {
      ValuesComplete(x);
    }
    assert beaten == {w[0], w[1]};
  }

  /** Every move loses to exactly two of the five moves. */
  lemma LosesToExactlyTwo(m: Move)
    ensures |set x | x in Values && Beats(x, m)| == 2
  {
    var l := LosingMoves(m);
    var beating := set x | x in Values && Beats(x, m);
    forall x
      ensures x in beating <==> x in {l[0], l[1]}
    {
      ValuesComplete(x);
    }
    assert beating == {l[0], l[1]};
  }

  /** `History#win?`: appends the move; earlier entries are kept. */
  function RecordWin(win: seq<Move>, m: Move): (r: seq<Move>)
    ensures |r| == |win| + 1 && r[..|win|] == win && r[|win|] == m
  {
    win + [m]
  }

  /** `win.count(m)` */
  function Count(win: seq<Move>, m: Move): (n: nat)
    ensures n <= |win|
    ensures n > 0 <==> m in win
  {
    if win == [] then 0
    else Count(win[..|win| - 1], m) + (if win[|win| - 1] == m then 1 else 0)
  }

  /** `xs.select { |el| win.count(el) == 2 }` */
  function TwiceFrom(win: seq<Move>, xs: seq<Move>): (r: seq<Move>)
    ensures forall x :: x in r <==> x in xs && Count(win, x) == 2
  {
    if xs == [] then []
    else (if Count(win, xs[0]) == 2 then [xs[0]] else []) + TwiceFrom(win, xs[1..])
  }

  /** The `selector` of `History#which_move`: every entry of the history
      that occurs exactly twice in it. */
  function Selector(win: seq<Move>): (r: seq<Move>)
    ensures forall x :: x in r <==> Count(win, x) == 2
  {
    TwiceFrom(win, win)
  }

  /** `History#which_move`: `false` (here `None`) when no move occurs
      exactly twice in the history; otherwise a move that beats one such
      move. `pick` and `counter` are the two random draws. */
  function WhichMove(win: seq<Move>, pick: nat, counter: nat): (r: Option<Move>)
    ensures r.None? <==> forall x :: Count(win, x) != 2
    ensures r.Some? ==> exists x :: Count(win, x) == 2 && Beats(r.value, x)
  {
    var selector := Selector(win);
    if selector == [] then None
    else
      var target := Sample(selector, pick);
      assert Count(win, target) == 2;
      var answer := Sample(LosingMoves(target), counter);
      assert Beats(answer, target);
      Some(answer)
  }

  /** Conversely, every move that beats some move occurring exactly twice
      is a possible answer of `which_move`. */
  lemma WhichMoveReachesEveryCounter(win: seq<Move>, x: Move, y: Move)
    requires Count(win, x) == 2 && Beats(y, x)
    ensures exists pick: nat, counter: nat :: WhichMove(win, pick, counter) == Some(y)
  {
    var selector := Selector(win);
    assert x in selector;
    var i :| 0 <= i < |selector| && selector[i] == x;
    var l := LosingMoves(x);
    assert y in l;
    var j :| 0 <= j < |l| && l[j] == y;
    SampleAt(selector, i);
    SampleAt(l, j);
    assert WhichMove(win, i, j) == Some(y);
  }

  /** A move played three times no longer steers the computer. */
  lemma ThriceDoesNotQualify(m: Move, pick: nat, counter: nat)
    ensures WhichMove([m, m, m], pick, counter) == None
  {
    assert [m, m, m][..2] == [m, m] && [m, m][..1] == [m] && [m][..0] == [];
    assert Count([m, m, m], m) == 3;
    forall x | x != m
      ensures Count([m, m, m], x) == 0
    {
    }
  }

  /** The computer's name, drawn at creation; `Number5` is the last branch
      of `Computer#choose`. */
  datatype ComputerName = R2D2 | Hal | Chappie | Sonny | Number5

  /** The lists `r2d2_choice` ... `number5_choice` sample from. */
  function Repertoire(name: ComputerName): (r: seq<Move>)
    ensures |r| > 0
  {
    match name
    case R2D2 => [Spock, Lizard, Paper]
    case Hal => [Scissors, Rock, Paper]
    case Chappie => [Spock, Scissors]
    case Sonny => [Rock, Paper]
    case Number5 => [Lizard, Rock]
  }

  /** `Computer#choose`: the counter move of `which_move` when there is
      one, else a draw from the computer's own repertoire. */
  function ComputerChoose(win: seq<Move>, name: ComputerName, pick: nat, counter: nat, draw: nat): (r: Move)
    ensures (exists x :: Count(win, x) == 2) ==> exists x :: Count(win, x) == 2 && Beats(r, x)
    ensures (forall x :: Count(win, x) != 2) ==> r in Repertoire(name)
  {
    match WhichMove(win, pick, counter)
    case Some(m) => m
    case None => Sample(Repertoire(name), draw)
  }

  /** The state `RPSGame` carries between rounds: both scores and the
      computer's record of the human's winning moves. */
  datatype Game = Game(humanScore: nat, computerScore: nat, humanWins: seq<Move>)

  /** `RPSGame#scoring`. A human win raises only the human's score and
      records the human's move; a computer win raises only the computer's
      score; a tie changes nothing. Between different moves exactly one
      score rises. */
  function Scoring(g: Game, human: Move, computer: Move): (r: Game)
    ensures Beats(human, computer) ==>
              r == Game(g.humanScore + 1, g.computerScore, RecordWin(g.humanWins, human))
    ensures Beats(computer, human) ==>
              r == Game(g.humanScore, g.computerScore + 1, g.humanWins)
    ensures human == computer ==> r == g
    ensures human != computer ==> r.humanScore + r.computerScore == g.humanScore + g.computerScore + 1
  {
    if Beats(human, computer) then
      g.(humanScore := g.humanScore + 1, humanWins := RecordWin(g.humanWins, human))
    else if Beats(computer, human) then
      g.(computerScore := g.computerScore + 1)
    else
      g
  }

  /** The threshold tested in `RPSGame#game_order_loop`. */
  const MatchPoint: nat := 3

  predicate MatchOver(g: Game)
  {
    g.humanScore == MatchPoint || g.computerScore == MatchPoint
  }

  /** What one round of `game_order_loop` reads: the human's move and the
      computer's three random draws. */
  datatype RoundInput = RoundInput(human: Move, pick: nat, counter: nat, draw: nat)

  /** From `g` to `r` no score fell, the history only grew, and it grew by
      one entry per point the human gained. */
  predicate Grows(g: Game, r: Game)
  {
    && g.humanScore <= r.humanScore && g.computerScore <= r.computerScore
    && |g.humanWins| <= |r.humanWins| && r.humanWins[..|g.humanWins|] == g.humanWins
    && |r.humanWins| - |g.humanWins| == r.humanScore - g.humanScore
  }

  lemma ScoringGrows(g: Game, human: Move, computer: Move)
    ensures Grows(g, Scoring(g, human, computer))
  {
  }

  lemma GrowsTransitive(a: Game, b: Game, c: Game)
    requires Grows(a, b) && Grows(b, c)
    ensures Grows(a, c)
  {
    assert c.humanWins[..|a.humanWins|] == c.humanWins[..|b.humanWins|][..|a.humanWins|];
  }

  /** One round of `game_order_loop`: the computer chooses from the
      history it holds before the round, then the round is scored. */
  function Round(g: Game, name: ComputerName, input: RoundInput): Game
  {
    Scoring(g, input.human, ComputerChoose(g.humanWins, name, input.pick, input.counter, input.draw))
  }

  /** The rounds of `inputs` played one after another from `g`. */
  function Play(g: Game, name: ComputerName, inputs: seq<RoundInput>): Game
  {
    if inputs == [] then g
    else Round(Play(g, name, inputs[..|inputs| - 1]), name, inputs[|inputs| - 1])
  }

  /** A round never lowers a score, grows the history as `Scoring` does,
      and adds at most one point in all. */
  lemma RoundGrows(g: Game, name: ComputerName, input: RoundInput)
    ensures Grows(g, Round(g, name, input))
    ensures Round(g, name, input).humanScore + Round(g, name, input).computerScore
            <= g.humanScore + g.computerScore + 1
  {
    var computer := ComputerChoose(g.humanWins, name, input.pick, input.counter, input.draw);
    ScoringGrows(g, input.human, computer);
  }

  /** Playing one more input is one more `Round`. */
  lemma PlayStep(g: Game, name: ComputerName, inputs: seq<RoundInput>, n: nat)
    requires n < |inputs|
    ensures Play(g, name, inputs[..n + 1]) == Round(Play(g, name, inputs[..n]), name, inputs[n])
  {
    assert inputs[..n + 1][..n] == inputs[..n];
  }

  /** What holds after the first `rounds` inputs of the match loop: `r`
      is those rounds played in order, none of the states before them had
      ended the match, no score passes three, at most one reaches it, and
      `r` grew from `g`. */
  predicate Played(g: Game, name: ComputerName, inputs: seq<RoundInput>, rounds: nat, r: Game)
  {
    && rounds <= |inputs|
    && r == Play(g, name, inputs[..rounds])
    && (forall n :: 0 <= n < rounds ==> !MatchOver(Play(g, name, inputs[..n])))
    && r.humanScore <= MatchPoint && r.computerScore <= MatchPoint
    && !(r.humanScore == MatchPoint && r.computerScore == MatchPoint)
    && Grows(g, r)
  }

  /** One more round, played while the match is not over, keeps `Played`. */
  lemma PlayedStep(g: Game, name: ComputerName, inputs: seq<RoundInput>, rounds: nat, r: Game)
    requires Played(g, name, inputs, rounds, r) && rounds < |inputs| && !MatchOver(r)
    ensures Played(g, name, inputs, rounds + 1, Round(r, name, inputs[rounds]))
  {
    var r' := Round(r, name, inputs[rounds]);
    PlayStep(g, name, inputs, rounds);
    RoundGrows(r, name, inputs[rounds]);
    GrowsTransitive(g, r, r');
    forall n | 0 <= n < rounds + 1
      ensures !MatchOver(Play(g, name, inputs[..n]))
    {
      if n == rounds {
        assert Play(g, name, inputs[..n]) == r;
      }
    }
  }

  /** `RPSGame#game_order_loop`: rounds until a score reaches three. The
      result is the rounds played one after another, and none of the
      states before the last round had ended the match: the loop stops
      right after the first round that brings a score to three, or early
      when the inputs run out. No score passes three and at most one
      reaches it; the history only grows, by one entry per round the human
      wins. */
  method GameOrderLoop(g: Game, name: ComputerName, inputs: seq<RoundInput>) returns (r: Game, rounds: nat)
    requires g.humanScore < MatchPoint && g.computerScore < MatchPoint
    ensures rounds <= |inputs|
    ensures r == Play(g, name, inputs[..rounds])
    ensures forall n :: 0 <= n < rounds ==> !MatchOver(Play(g, name, inputs[..n]))
    ensures rounds < |inputs| ==> MatchOver(r)
    ensures r.humanScore <= MatchPoint && r.computerScore <= MatchPoint
    ensures !(r.humanScore == MatchPoint && r.computerScore == MatchPoint)
    ensures g.humanScore <= r.humanScore && g.computerScore <= r.computerScore
    ensures |g.humanWins| <= |r.humanWins| && r.humanWins[..|g.humanWins|] == g.humanWins
    ensures |r.humanWins| - |g.humanWins| == r.humanScore - g.humanScore
  {
    r, rounds := g, 0;
    assert inputs[..0] == [];
    while rounds < |inputs| && !MatchOver(r)
      invariant Played(g, name, inputs, rounds, r)
      decreases |inputs| - rounds
    {
      PlayedStep(g, name, inputs, rounds, r);
      r := Round(r, name, inputs[rounds]);
      rounds := rounds + 1;
    }
  }

  datatype Champion = HumanChampion | ComputerChampion

  /** `RPSGame#display_game_winner`: the human is named iff the human's
      score is greater. */
  function GameWinner(g: Game): (c: Champion)
    ensures c == HumanChampion <==> g.humanScore > g.computerScore
  {
    if g.humanScore > g.computerScore then HumanChampion else ComputerChampion
  }

  /** At the end of a match the player named is the one who reached three. */
  lemma WinnerReachedMatchPoint(g: Game)
    requires MatchOver(g) && g.humanScore <= MatchPoint && g.computerScore <= MatchPoint
    requires !(g.humanScore == MatchPoint && g.computerScore == MatchPoint)
    ensures GameWinner(g) == HumanChampion <==> g.humanScore == MatchPoint
    ensures GameWinner(g) == ComputerChampion <==> g.computerScore == MatchPoint
  {
  }

  /** After a match `RPSGame#play` sets both scores to zero; the history of
      the human's wins is kept for the next match. */
  function EndMatch(g: Game): (r: Game)
    ensures r.humanScore == 0 && r.computerScore == 0 && r.humanWins == g.humanWins
  {
    g.(humanScore := 0, computerScore := 0)
  }
}
