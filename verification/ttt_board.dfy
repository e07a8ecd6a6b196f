/** The tic-tac-toe board of lesson5/ttt.rb: nine squares keyed 1..9, the
    fixed table of winning lines, win detection and the two "two in a line"
    scanners the computer opponent uses. */
module TttBoard {
  import opened Options

  /** The marker of a square. `Empty` is the source's blank `" "`; `Human`
      is the human's one-character marker and `Computer` is `'O'`. The human
      marker is assumed to be one character other than `'O'` and `' '`. */
  datatype Marker = Empty | Human | Computer

  /** A square key. */
  type Key = k: int | 1 <= k <= 9 witness 1

  /** The nine squares; square `k` is element `k - 1`. */
  type Board = s: seq<Marker> | |s| == 9
    witness [Empty, Empty, Empty, Empty, Empty, Empty, Empty, Empty, Empty]

  function At(b: Board, k: Key): Marker
  {
    b[k - 1]
  }

  /** `Square#unmarked?` */
  predicate Unmarked(b: Board, k: Key)
  {
    At(b, k) == Empty
  }

  /** Three square keys. */
  datatype Line = Line(p: Key, q: Key, s: Key)

  /** `WINNING_LINES`: rows, then columns, then diagonals. */
  const WinningLines: seq<Line> :=
    [Line(1, 2, 3), Line(4, 5, 6), Line(7, 8, 9),
     Line(1, 4, 7), Line(2, 5, 8), Line(3, 6, 9),
     Line(1, 5, 9), Line(3, 5, 7)]

  /** Each of the eight lines names three different squares, in increasing
      order, and no line is listed twice. */
  lemma WinningLinesDistinct()
    ensures |WinningLines| == 8
    ensures forall j :: 0 <= j < |WinningLines| ==>
              WinningLines[j].p < WinningLines[j].q < WinningLines[j].s
    ensures forall i, j :: 0 <= i < j < |WinningLines| ==> WinningLines[i] != WinningLines[j]
  {
  }

  predicate OnLine(k: Key, l: Line)
  {
    k == l.p || k == l.q || k == l.s
  }

  /** Reference meaning of a won line: its three squares hold one and the
      same marker, and that marker is not the blank. */
  predicate Uniform(b: Board, l: Line)
  {
    At(b, l.p) != Empty && At(b, l.p) == At(b, l.q) && At(b, l.q) == At(b, l.s)
  }

  /** Every square of the line is marked. */
  predicate Filled(b: Board, l: Line)
  {
    !Unmarked(b, l.p) && !Unmarked(b, l.q) && !Unmarked(b, l.s)
  }

  /** `Board#reset`: nine fresh squares. */
  function Reset(): (b: Board)
    ensures forall k: Key :: Unmarked(b, k)
  {
    [Empty, Empty, Empty, Empty, Empty, Empty, Empty, Empty, Empty]
  }

  /** `Board#[]=`: overwrites square `k` without looking at what it held. */
  function Set(b: Board, k: Key, m: Marker): (r: Board)
    ensures At(r, k) == m
    ensures forall j: Key :: j != k ==> At(r, j) == At(b, j)
  {
    b[k - 1 := m]
  }

  predicate Ascending(keys: seq<Key>)
  {
    forall i, j :: 0 <= i < j < |keys| ==> keys[i] < keys[j]
  }

  /** The unmarked keys from `lo` upwards, in the hash's key order 1..9. */
  function UnmarkedFrom(b: Board, lo: int): (r: seq<Key>)
    requires 1 <= lo <= 10
    ensures forall k: Key :: k in r <==> lo <= k && Unmarked(b, k)
    ensures forall i :: 0 <= i < |r| ==> lo <= r[i]
    ensures Ascending(r)
    decreases 10 - lo
  {
    if lo == 10 then []
    else if Unmarked(b, lo) then [lo as Key] + UnmarkedFrom(b, lo + 1)
    else UnmarkedFrom(b, lo + 1)
  }

  /** `Board#unmarked_keys`: exactly the unmarked keys, ascending. */
  function UnmarkedKeys(b: Board): (r: seq<Key>)
    ensures forall k: Key :: k in r <==> Unmarked(b, k)
    ensures Ascending(r)
  {
    UnmarkedFrom(b, 1)
  }

  /** `Board#full?`: no key is unmarked. */
  function Full(b: Board): (r: bool)
    ensures r <==> forall k: Key :: !Unmarked(b, k)
  {
    var keys := UnmarkedKeys(b);
    assert |keys| > 0 ==> keys[0] in keys;
    |keys| == 0
  }

  /** `squares.select(&:marked?).collect(&:marker)`: every non-blank
      marker is kept as often as it occurs, and only blanks are dropped. */
  function MarkedOnly(ms: seq<Marker>): (r: seq<Marker>)
    ensures |r| <= |ms|
    ensures |r| == |ms| ==> r == ms
    ensures (forall i :: 0 <= i < |ms| ==> ms[i] != Empty) ==> r == ms
    ensures forall m :: m in r ==> m != Empty
    ensures forall m :: m != Empty ==> multiset(r)[m] == multiset(ms)[m]
    decreases |ms|
  {
    if ms == [] then []
    else
      assert ms == [ms[0]] + ms[1..];
      if ms[0] != Empty then [ms[0]] + MarkedOnly(ms[1..])
      else MarkedOnly(ms[1..])
  }

  /** `Board#three_identical_markers?`: three marked squares whose smallest
      and largest marker coincide. A line with a blank square never
      qualifies. */
  function ThreeIdenticalMarkers(ms: seq<Marker>): (r: bool)
    requires |ms| == 3
    ensures r <==> ms[0] != Empty && ms[0] == ms[1] && ms[1] == ms[2]
  {
    var markers := MarkedOnly(ms);
    // `markers.min == markers.max` holds iff all markers are equal
    |markers| == 3 && markers[0] == markers[1] && markers[1] == markers[2]
  }

  function LineMarkers(b: Board, l: Line): (ms: seq<Marker>)
    ensures |ms| == 3
  {
    [At(b, l.p), At(b, l.q), At(b, l.s)]
  }

  /** Line `j` is the first won line of the table. */
  predicate FirstWonLine(b: Board, j: int)
  {
    && 0 <= j < |WinningLines|
    && Uniform(b, WinningLines[j])
    && forall j' :: 0 <= j' < j ==> !Uniform(b, WinningLines[j'])
  }

  function WinnerFrom(b: Board, i: nat): (r: Option<Marker>)
    requires i <= |WinningLines|
    ensures r.None? <==> forall j :: i <= j < |WinningLines| ==> !Uniform(b, WinningLines[j])
    ensures r.Some? ==> exists j :: i <= j < |WinningLines|
                          && Uniform(b, WinningLines[j])
                          && r.value == At(b, WinningLines[j].p)
                          && forall j' :: i <= j' < j ==> !Uniform(b, WinningLines[j'])
    decreases |WinningLines| - i
  {
    if i == |WinningLines| then None
    else
      var squares := LineMarkers(b, WinningLines[i]);
      if ThreeIdenticalMarkers(squares) then Some(squares[0])
      else WinnerFrom(b, i + 1)
  }

  /** `Board#winning_marker`: the marker of the first won line in table
      order, or `nil` when no line is won. */
  function WinningMarker(b: Board): (r: Option<Marker>)
    ensures r.None? <==> forall j :: 0 <= j < |WinningLines| ==> !Uniform(b, WinningLines[j])
    ensures r.Some? ==> (r.value != Empty
                         && exists j :: FirstWonLine(b, j) && r.value == At(b, WinningLines[j].p))
  {
    WinnerFrom(b, 0)
  }

  /** `Board#someone_won?` */
  function SomeoneWon(b: Board): (r: bool)
    ensures r <==> exists j :: 0 <= j < |WinningLines| && Uniform(b, WinningLines[j])
  {
    WinningMarker(b).Some?
  }

  /** `line.select { |el| ... }.size`: how many squares of the line hold `m`. */
  function CountOn(b: Board, l: Line, m: Marker): (n: nat)
    ensures n <= 3
  {
    (if At(b, l.p) == m then 1 else 0)
    + (if At(b, l.q) == m then 1 else 0)
    + (if At(b, l.s) == m then 1 else 0)
  }

  /** The first of `keys` that lies on the line. */
  function FirstOnLine(keys: seq<Key>, l: Line): (r: Option<Key>)
    requires Ascending(keys)
    ensures r.None? <==> forall k :: k in keys ==> !OnLine(k, l)
    ensures r.Some? ==> (r.value in keys && OnLine(r.value, l)
                         && forall k :: k in keys && OnLine(k, l) ==> r.value <= k)
  {
    if keys == [] then None
    else if OnLine(keys[0], l) then Some(keys[0])
    else FirstOnLine(keys[1..], l)
  }

  /** `@squares.select { |k, _| line.include?(k) && unmarked }.keys.first`:
      the smallest unmarked key of the line, or `nil` if it is filled. */
  function FirstUnmarkedOn(b: Board, l: Line): (r: Option<Key>)
    ensures r.None? <==> Filled(b, l)
    ensures r.Some? ==> (OnLine(r.value, l) && Unmarked(b, r.value)
                         && forall k: Key :: OnLine(k, l) && Unmarked(b, k) ==> r.value <= k)
  {
    var keys := UnmarkedKeys(b);
    assert Unmarked(b, l.p) ==> l.p in keys;
    assert Unmarked(b, l.q) ==> l.q in keys;
    assert Unmarked(b, l.s) ==> l.s in keys;
    FirstOnLine(keys, l)
  }

  /** Line `j` is the first line, from `i` on, with exactly two squares
      holding `m`. */
  predicate FirstPairAt(b: Board, m: Marker, i: nat, j: int)
  {
    && i <= j < |WinningLines|
    && CountOn(b, WinningLines[j], m) == 2
    && forall j' :: i <= j' < j ==> CountOn(b, WinningLines[j'], m) != 2
  }

  /** The loop of `attack_to_win` and `detect_threat` over the table (from
      line `i`): the index of the first line with exactly two squares
      holding `m`. */
  function FirstPairFrom(b: Board, m: Marker, i: nat): (r: Option<nat>)
    requires i <= |WinningLines|
    ensures r.Some? ==> FirstPairAt(b, m, i, r.value)
    ensures r.None? <==> forall j :: i <= j < |WinningLines| ==> CountOn(b, WinningLines[j], m) != 2
    decreases |WinningLines| - i
  {
    if i == |WinningLines| then None
    else if CountOn(b, WinningLines[i], m) == 2 then Some(i)
    else FirstPairFrom(b, m, i + 1)
  }

  /** The answer of `attack_to_win` / `detect_threat`: stop at the first
      line with exactly two squares holding `m` and return its smallest
      unmarked key, or `nil` when its third square is taken; later lines are
      not looked at. */
  function PairScan(b: Board, m: Marker): (r: Option<Key>)
    ensures r.Some? ==> Unmarked(b, r.value)
    ensures r.Some? ==> exists j :: FirstPairAt(b, m, 0, j) && OnLine(r.value, WinningLines[j])
                          && forall k: Key :: OnLine(k, WinningLines[j]) && Unmarked(b, k) ==> r.value <= k
    ensures r.None? <==> forall j :: FirstPairAt(b, m, 0, j) ==> Filled(b, WinningLines[j])
  {
    match FirstPairFrom(b, m, 0)
    case None => None
    case Some(j) =>
      FirstPairUnique(b, m, j);
      FirstUnmarkedOn(b, WinningLines[j])
  }

  /** At most one line is the first with two squares holding `m`. */
  lemma FirstPairUnique(b: Board, m: Marker, j: int)
    requires FirstPairAt(b, m, 0, j)
    ensures forall j' :: FirstPairAt(b, m, 0, j') ==> j' == j
  {
  }

  /** `Board#attack_to_win`: scan for two computer marks. */
  function AttackToWin(b: Board): (r: Option<Key>)
    ensures r.Some? ==> Unmarked(b, r.value)
    ensures r.Some? ==> exists j :: FirstPairAt(b, Computer, 0, j) && OnLine(r.value, WinningLines[j])
                          && forall k: Key :: OnLine(k, WinningLines[j]) && Unmarked(b, k) ==> r.value <= k
    ensures r.None? <==> forall j :: FirstPairAt(b, Computer, 0, j) ==> Filled(b, WinningLines[j])
  {
    PairScan(b, Computer)
  }

  /** `Board#detect_threat`: scan for squares matching `/[^O ]/`, which
      under the one-character marker assumption are the human's squares. */
  function DetectThreat(b: Board): (r: Option<Key>)
    ensures r.Some? ==> Unmarked(b, r.value)
    ensures r.Some? ==> exists j :: FirstPairAt(b, Human, 0, j) && OnLine(r.value, WinningLines[j])
                          && forall k: Key :: OnLine(k, WinningLines[j]) && Unmarked(b, k) ==> r.value <= k
    ensures r.None? <==> forall j :: FirstPairAt(b, Human, 0, j) ==> Filled(b, WinningLines[j])
  {
    PairScan(b, Human)
  }

  /** `Board#attack_sq_five`: 5 when the centre is unmarked, else `nil`. */
  function AttackSqFive(b: Board): (r: Option<Key>)
    ensures r.Some? <==> Unmarked(b, 5)
    ensures r.Some? ==> r.value == 5
  {
    if At(b, 5) == Empty then Some(5) else None
  }

  /** Every square holds `m` or nothing. */
  predicate OnlyMarks(b: Board, m: Marker)
  {
    forall k: Key :: At(b, k) == Empty || At(b, k) == m
  }

  lemma SetKeepsOnlyMarks(b: Board, k: Key, m: Marker)
    requires OnlyMarks(b, m)
    ensures OnlyMarks(Set(b, k, m), m)
  {
  }

  /** Marking the three squares of any winning line with one marker on an
      empty board wins for that marker. */
  lemma OneLineOnEmptyBoard(j: nat, m: Marker)
    requires j < |WinningLines| && m != Empty
    ensures var l := WinningLines[j];
            WinningMarker(Set(Set(Set(Reset(), l.p, m), l.q, m), l.s, m)) == Some(m)
  {
    var l := WinningLines[j];
    var one := Set(Reset(), l.p, m);
    var two := Set(one, l.q, m);
    var three := Set(two, l.s, m);
    SetKeepsOnlyMarks(Reset(), l.p, m);
    SetKeepsOnlyMarks(one, l.q, m);
    SetKeepsOnlyMarks(two, l.s, m);
    assert Uniform(three, l);
    var r := WinningMarker(three);
    assert r.Some?;
  }

  /** Two squares of a winning line marked on an empty board win for
      nobody. */
  lemma TwoOfLineOnEmptyBoard(j: nat, m: Marker)
    requires j < |WinningLines|
    ensures var l := WinningLines[j];
            WinningMarker(Set(Set(Reset(), l.p, m), l.q, m)) == None
  {
    var l := WinningLines[j];
    var two := Set(Set(Reset(), l.p, m), l.q, m);
    forall j' | 0 <= j' < |WinningLines|
      ensures !Uniform(two, WinningLines[j'])
    {
      assert Unmarked(two, l.s);
      assert forall k: Key :: k != l.p && k != l.q ==> Unmarked(two, k);
    }
  }

  /** A reset board is neither won nor full. */
  lemma ResetBoardUndecided()
    ensures !SomeoneWon(Reset()) && !Full(Reset())
  {
    assert Unmarked(Reset(), 1);
    forall j | 0 <= j < |WinningLines|
      ensures !Uniform(Reset(), WinningLines[j])
    {
      assert Unmarked(Reset(), WinningLines[j].p);
    }
  }

  /** X takes 1 and 2, O takes 4, X takes 3: the top row wins for X. */
  lemma TopRowExample()
    ensures WinningMarker(Set(Set(Set(Set(Reset(), 1, Human), 2, Human), 4, Computer), 3, Human)) == Some(Human)
  {
    var b := Set(Set(Set(Set(Reset(), 1, Human), 2, Human), 4, Computer), 3, Human);
    assert b == [Human, Human, Human, Computer, Empty, Empty, Empty, Empty, Empty];
    assert ThreeIdenticalMarkers(LineMarkers(b, WinningLines[0]));
  }

  /** The board X O X / X O O / O X X is full and won by nobody. */
  lemma DrawExample()
    ensures var b := [Human, Computer, Human, Human, Computer, Computer, Computer, Human, Human];
            Full(b) && WinningMarker(b) == None
  {
    var b: Board := [Human, Computer, Human, Human, Computer, Computer, Computer, Human, Human];
    assert forall k: Key :: !Unmarked(b, k);
    assert !Uniform(b, WinningLines[0]) && !Uniform(b, WinningLines[1]);
    assert !Uniform(b, WinningLines[2]) && !Uniform(b, WinningLines[3]);
    assert !Uniform(b, WinningLines[4]) && !Uniform(b, WinningLines[5]);
    assert !Uniform(b, WinningLines[6]) && !Uniform(b, WinningLines[7]);
  }
}
