/** The computer opponent of lesson5/ttt.rb (`TTTGame#computer_moves`):
    win, else take the centre, else block, else a random free square. */
module TttComputer {
  import opened Options
  import opened Choice
  import opened TttBoard

  /** The square `computer_moves` marks. `draw` is the random number behind
      `unmarked_keys.sample`; it is used only when no rule before it fires. */
  function ComputerSquare(b: Board, draw: nat): (k: Key)
    requires !Full(b)
    ensures Unmarked(b, k)
    ensures AttackToWin(b).Some? ==> k == AttackToWin(b).value
    ensures AttackToWin(b).None? && Unmarked(b, 5) ==> k == 5
    ensures AttackToWin(b).None? && !Unmarked(b, 5) && DetectThreat(b).Some? ==> k == DetectThreat(b).value
  {
    match AttackToWin(b)
    case Some(k) => k
    case None =>
      match AttackSqFive(b)
      case Some(k) => k
      case None =>
        match DetectThreat(b)
        case Some(k) => k
        case None => Sample(UnmarkedKeys(b), draw)
  }

  /** The usual textbook order of the same rules, for comparison with the
      code's: win, else block, else take the centre, else a random free
      square. */
  function TextbookSquare(b: Board, draw: nat): (k: Key)
    requires !Full(b)
    ensures Unmarked(b, k)
    ensures AttackToWin(b).Some? ==> k == AttackToWin(b).value
    ensures AttackToWin(b).None? && DetectThreat(b).Some? ==> k == DetectThreat(b).value
    ensures AttackToWin(b).None? && DetectThreat(b).None? && Unmarked(b, 5) ==> k == 5
  {
    match AttackToWin(b)
    case Some(k) => k
    case None =>
      match DetectThreat(b)
      case Some(k) => k
      case None =>
        match AttackSqFive(b)
        case Some(k) => k
        case None => Sample(UnmarkedKeys(b), draw)
  }

  /** `TTTGame#computer_moves`: the board after the computer's mark. The
      marked square was unmarked, so no mark is ever overwritten, and no
      other square changes. */
  function ComputerMoves(b: Board, draw: nat): (r: Board)
    requires !Full(b)
    ensures exists k: Key :: Unmarked(b, k) && At(r, k) == Computer
                          && forall j: Key :: j != k ==> At(r, j) == At(b, j)
  {
    Set(b, ComputerSquare(b, draw), Computer)
  }

  /** Marking the third square of a line that holds `m` twice wins it. */
  lemma PairLineCompletes(b: Board, l: Line, m: Marker, k: Key)
    requires m != Empty && CountOn(b, l, m) == 2
    requires OnLine(k, l) && Unmarked(b, k)
    ensures Uniform(Set(b, k, m), l)
  {
  }

  /** A line that one mark turns into a won line contains the marked
      square, and is won by the marker placed. */
  lemma NewlyWonLineHoldsMark(b: Board, l: Line, m: Marker, k: Key)
    requires !Uniform(b, l) && Uniform(Set(b, k, m), l)
    ensures OnLine(k, l) && At(Set(b, k, m), l.p) == m
  {
  }

  /** Marking the square a scan for `m` answers wins the round for `m`,
      provided nobody has won yet: the scanned line holds `m` twice and its
      third square is the one answered, and any line the mark completes
      contains that square. */
  lemma PairCompletionWins(b: Board, m: Marker)
    requires m != Empty
    requires !SomeoneWon(b)
    requires PairScan(b, m).Some?
    ensures WinningMarker(Set(b, PairScan(b, m).value, m)) == Some(m)
  {
    var k := PairScan(b, m).value;
    var j :| FirstPairAt(b, m, 0, j) && OnLine(k, WinningLines[j]);
    var b' := Set(b, k, m);
    PairLineCompletes(b, WinningLines[j], m, k);
    var r := WinningMarker(b');
    assert r.Some?;
    var j' :| FirstWonLine(b', j') && r.value == At(b', WinningLines[j'].p);
    assert !Uniform(b, WinningLines[j']);
    NewlyWonLineHoldsMark(b, WinningLines[j'], m, k);
  }

  /** Rule 1: when the first line with two computer marks is open, the
      computer's move wins the round. */
  lemma ComputerTakesOpenWin(b: Board, draw: nat)
    requires !Full(b) && !SomeoneWon(b)
    requires AttackToWin(b).Some?
    ensures WinningMarker(ComputerMoves(b, draw)) == Some(Computer)
  {
    PairCompletionWins(b, Computer);
  }

  /** Rule 3: with no open computer line and the centre taken, the computer
      marks exactly the square on which the human would have won. */
  lemma ComputerBlocksThreat(b: Board, draw: nat)
    requires !Full(b) && !SomeoneWon(b)
    requires AttackToWin(b).None? && !Unmarked(b, 5) && DetectThreat(b).Some?
    ensures WinningMarker(Set(b, ComputerSquare(b, draw), Human)) == Some(Human)
  {
    PairCompletionWins(b, Human);
  }

  /** What the code's order of tests would do on a board where the human
      (`X`) holds 1 and 2 and the computer holds 9 with the centre free:
      take the centre, after which square 3 wins for the human. This board
      cannot arise in play, because the computer takes a free centre with
      its first mark; `TttGame.CentreFirstChangesNothing` shows that in
      play the code's order always picks the textbook square. */
  lemma CentreLeavesThreatOpen(draw: nat)
    ensures var b := [Human, Human, Empty, Empty, Empty, Empty, Empty, Empty, Computer];
            && DetectThreat(b) == Some(3)
            && ComputerSquare(b, draw) == 5
            && WinningMarker(Set(ComputerMoves(b, draw), 3, Human)) == Some(Human)
  {
    var b: Board := [Human, Human, Empty, Empty, Empty, Empty, Empty, Empty, Computer];
    assert FirstPairFrom(b, Human, 0) == Some(0);
    assert AttackToWin(b) == None;
    var b' := Set(ComputerMoves(b, draw), 3, Human);
    assert Uniform(b', WinningLines[0]);
  }

  /** The scans stop at the first line holding two computer marks even when
      its third square is taken: here row 1 is O O X, column 1 would be won
      by marking 7, and `attack_to_win` still answers `nil`. */
  lemma AttackStopsAtFirstPairLine()
    ensures var b := [Computer, Computer, Human, Computer, Human, Human, Empty, Human, Empty];
            && !SomeoneWon(b)
            && AttackToWin(b) == None
            && WinningMarker(Set(b, 7, Computer)) == Some(Computer)
  {
    var b: Board := [Computer, Computer, Human, Computer, Human, Human, Empty, Human, Empty];
    assert forall j :: 0 <= j < |WinningLines| ==> !Uniform(b, WinningLines[j]) by {
      assert !Uniform(b, WinningLines[0]) && !Uniform(b, WinningLines[1]);
      assert !Uniform(b, WinningLines[2]) && !Uniform(b, WinningLines[3]);
      assert !Uniform(b, WinningLines[4]) && !Uniform(b, WinningLines[5]);
      assert !Uniform(b, WinningLines[6]) && !Uniform(b, WinningLines[7]);
    }
    assert FirstPairFrom(b, Computer, 0) == Some(0);
    assert Filled(b, WinningLines[0]);
    var b' := Set(b, 7, Computer);
    assert Uniform(b', WinningLines[3]);
    assert forall j :: 0 <= j < 3 ==> !Uniform(b', WinningLines[j]);
  }

  /** On an empty board neither scan finds anything. */
  lemma ScansFindNothingOnEmptyBoard()
    ensures AttackToWin(Reset()) == None && DetectThreat(Reset()) == None
  {
    assert FirstPairFrom(Reset(), Computer, 0) == None;
    assert FirstPairFrom(Reset(), Human, 0) == None;
  }
}
