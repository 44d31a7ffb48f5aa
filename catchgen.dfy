/**
 * The deterministic parts of the catch-problem generator (CatchGen): the
 * grid arithmetic on a WIDTH x HEIGHT grid of N = WIDTH·HEIGHT locations
 * numbered row by row, and the builders of fragments of the SPUDD model
 * file.
 */
module CatchGen {
  import opened Decimal
  import opened Vectors

  /** The dimensions a CatchGen is built with; they never change afterwards. */
  datatype Grid = Grid(width: int, height: int)
  {
    /** The field N: the number of physical locations. */
    function Size(): int
    {
      width * height
    }
  }

  /** The move directions. */
  datatype Direction = N | S | E | W

  // ---------------------------------------------------------------------
  // Grid arithmetic
  // ---------------------------------------------------------------------

  function Abs(x: int): nat
  {
    if x < 0 then -x else x
  }

  /** Java's int division, truncating toward zero. */
  function JavaDiv(a: int, b: int): int
    requires b != 0
  {
    var q := Abs(a) / Abs(b);
    if (a < 0) == (b < 0) then q else -q
  }

  /** Java's int remainder, with the sign of the dividend. */
  function JavaRem(a: int, b: int): int
    requires b != 0
  {
    a - b * JavaDiv(a, b)
  }

  /** On non-negative operands Java's division and remainder are the usual ones. */
  lemma JavaDivRemNonNegative(a: int, b: int)
    requires 0 <= a && 0 < b
    ensures JavaDiv(a, b) == a / b && JavaRem(a, b) == a % b
    ensures 0 <= JavaRem(a, b) < b
  {
  }

  /**
   * gp.getxy: column pos % WIDTH and row pos / WIDTH. Row and column give
   * back the position, and a non-negative position on a grid of positive
   * width has a column in [0, WIDTH) and a non-negative row.
   */
  function GetXY(g: Grid, pos: int): (r: (int, int))
    requires g.width != 0
    ensures r.1 * g.width + r.0 == pos
    ensures 0 < g.width && 0 <= pos ==> 0 <= r.0 < g.width && 0 <= r.1
  {
    (JavaRem(pos, g.width), JavaDiv(pos, g.width))
  }

  /**
   * getpos: the location of column x in row y. For a column on the grid and
   * a non-negative row it is non-negative, and dividing by the width gives
   * the row back, the remainder the column.
   */
  function GetPos(g: Grid, x: int, y: int): (r: int)
    ensures 0 <= x < g.width && 0 <= y ==> 0 <= r && r / g.width == y && r % g.width == x
  {
    if 0 <= x < g.width && 0 <= y then
      NonNegativeProduct(y, g.width);
      DivModUnique(y * g.width + x, g.width, y, x);
      y * g.width + x
    else
      y * g.width + x
  }

  lemma NonNegativeProduct(a: int, b: int)
    requires 0 <= a && 0 <= b
    ensures 0 <= a * b
  {
  }

  lemma ShiftRow(x: int, y: int, w: int)
    ensures (y + 1) * w + x == y * w + x + w
    ensures (y - 1) * w + x == y * w + x - w
  {
  }

  /**
   * getAdjacentPos: the location one step from p1 in direction move, which
   * is p1 ± WIDTH for north and south and p1 ± 1 for east and west.
   */
  function GetAdjacentPos(g: Grid, p1: int, move: Direction): (r: int)
    requires g.width != 0
    ensures move == N ==> r == p1 + g.width
    ensures move == S ==> r == p1 - g.width
    ensures move == E ==> r == p1 + 1
    ensures move == W ==> r == p1 - 1
  {
    var (x1, y1) := GetXY(g, p1);
    ShiftRow(x1, y1, g.width);
    match move
    case N => GetPos(g, x1, y1 + 1)
    case S => GetPos(g, x1, y1 - 1)
    case E => GetPos(g, x1 + 1, y1)
    case W => GetPos(g, x1 - 1, y1)
  }

  /** getAdjIndex: 0 same cell, 1 north, 2 east, 3 south, 4 west, -1 otherwise. */
  function GetAdjIndex(g: Grid, currpos: int, nextpos: int): (r: int)
    requires g.width != 0
    ensures -1 <= r <= 4
  {
    var (currx, curry) := GetXY(g, currpos);
    var (nextx, nexty) := GetXY(g, nextpos);
    if nexty == curry && nextx == currx then 0
    else if nexty == curry + 1 && nextx == currx then 1
    else if nexty == curry && nextx == currx + 1 then 2
    else if nexty == curry - 1 && nextx == currx then 3
    else if nexty == curry && nextx == currx - 1 then 4
    else -1
  }

  /** The code getAdjIndex gives a step in each direction. */
  function DirectionCode(d: Direction): int
  {
    match d
    case N => 1
    case E => 2
    case S => 3
    case W => 4
  }

  /** A location given by its column and row lies on the grid. */
  predicate OnGrid(g: Grid, x: int, y: int)
  {
    0 <= x < g.width && 0 <= y < g.height
  }

  /** Positions and coordinates: getpos undoes getxy for every position. */
  lemma GetPosOfGetXY(g: Grid, p: int)
    requires g.width != 0
    ensures GetPos(g, GetXY(g, p).0, GetXY(g, p).1) == p
  {
  }

  /** q = y·w + x with 0 <= x < w fixes the quotient and remainder of q by w. */
  lemma DivModUnique(q: int, w: int, y: int, x: int)
    requires 0 < w && 0 <= x < w && q == y * w + x
    ensures q / w == y && q % w == x
  {
    var y', x' := q / w, q % w;
    assert (y' - y) * w == x - x' by {
      assert q == y' * w + x';
    }
    if y' != y {
      MultipleAtLeast(y' - y, w);
      assert false;
    }
  }

  /** A non-zero multiple of w is at least w away from zero. */
  lemma MultipleAtLeast(k: int, w: int)
    requires 0 < w && k != 0
    ensures k * w >= w || k * w <= -w
  {
    if k < 0 {
      PositiveMultiple(-k, w);
      assert (-k) * w == -(k * w);
    } else {
      PositiveMultiple(k, w);
    }
  }

  lemma {:induction false} PositiveMultiple(k: int, w: int)
    requires 0 < w && 0 < k
    ensures k * w >= w
    decreases k
  {
    if k > 1 {
      PositiveMultiple(k - 1, w);
      assert k * w == (k - 1) * w + w;
    }
  }

  /** Coordinates and positions: getxy undoes getpos on the non-negative quadrant. */
  lemma GetXYOfGetPos(g: Grid, x: int, y: int)
    requires 0 <= x < g.width && 0 <= y
    ensures GetXY(g, GetPos(g, x, y)) == (x, y)
  {
    JavaDivRemNonNegative(GetPos(g, x, y), g.width);
  }

  /** getAdjIndex reads direction the same both ways round. */
  lemma AdjIndexSymmetric(g: Grid, p: int, q: int)
    requires g.width != 0
    ensures GetAdjIndex(g, p, q) == 0 <==> GetAdjIndex(g, q, p) == 0
    ensures GetAdjIndex(g, p, q) == 1 <==> GetAdjIndex(g, q, p) == 3
    ensures GetAdjIndex(g, p, q) == 2 <==> GetAdjIndex(g, q, p) == 4
  {
  }

  /**
   * On non-negative positions of a grid with positive width, the code names
   * the neighbour: 0 the same location, 1 one row up, 2 one column right in
   * the same row, 3 one row down, 4 one column left in the same row.
   */
  lemma AdjIndexNeighbours(g: Grid, p: int, q: int)
    requires 0 < g.width && 0 <= p && 0 <= q
    ensures GetAdjIndex(g, p, q) == 0 <==> q == p
    ensures GetAdjIndex(g, p, q) == 1 <==> q == p + g.width
    ensures GetAdjIndex(g, p, q) == 2 <==> q == p + 1 && p % g.width != g.width - 1
    ensures GetAdjIndex(g, p, q) == 3 <==> q == p - g.width
    ensures GetAdjIndex(g, p, q) == 4 <==> q == p - 1 && p % g.width != 0
  {
    var w := g.width;
    JavaDivRemNonNegative(p, w);
    var c := GetXY(g, p);
    var d := GetXY(g, q);
    assert d == c <==> q == p;
    assert d == (c.0, c.1 + 1) <==> q == p + w by {
      CellStep(g, q, c.0, c.1 + 1);
      ShiftRow(c.0, c.1, w);
    }
    assert d == (c.0, c.1 - 1) <==> q == p - w by {
      CellStep(g, q, c.0, c.1 - 1);
      ShiftRow(c.0, c.1, w);
    }
    assert d == (c.0 + 1, c.1) <==> q == p + 1 && c.0 != w - 1 by {
      CellStep(g, q, c.0 + 1, c.1);
    }
    assert d == (c.0 - 1, c.1) <==> q == p - 1 && c.0 != 0 by {
      CellStep(g, q, c.0 - 1, c.1);
    }
  }

  /**
   * A location q lies at column x, row y exactly when both are on the grid
   * and q is y·WIDTH + x.
   */
  lemma CellStep(g: Grid, q: int, x: int, y: int)
    requires 0 < g.width && 0 <= q
    ensures GetXY(g, q) == (x, y) <==> 0 <= x < g.width && 0 <= y && q == y * g.width + x
  {
    if 0 <= x < g.width && 0 <= y && q == y * g.width + x {
      GetXYOfGetPos(g, x, y);
    }
  }

  /**
   * A step that stays on the grid is the neighbour getAdjIndex names for
   * that direction.
   */
  lemma AdjacentPosIndex(g: Grid, p: int, d: Direction)
    requires 0 < g.width && 0 <= p
    requires var (x, y) := GetXY(g, p);
      match d
      case N => OnGrid(g, x, y + 1)
      case S => OnGrid(g, x, y - 1)
      case E => OnGrid(g, x + 1, y)
      case W => OnGrid(g, x - 1, y)
    ensures GetAdjIndex(g, p, GetAdjacentPos(g, p, d)) == DirectionCode(d)
  {
    var (x, y) := GetXY(g, p);
    match d
    case N => GetXYOfGetPos(g, x, y + 1);
    case S => GetXYOfGetPos(g, x, y - 1);
    case E => GetXYOfGetPos(g, x + 1, y);
    case W => GetXYOfGetPos(g, x - 1, y);
  }

  // ---------------------------------------------------------------------
  // SPUDD fragments
  // ---------------------------------------------------------------------

  /** The number of iterations of a loop `for (c = 0; c < n; c++)`. */
  function Count(n: int): nat
  {
    if n < 0 then 0 else n
  }

  /** The concatenation of a sequence of strings, in order. */
  function Concat(ss: seq<string>): string
  {
    if |ss| == 0 then "" else Concat(ss[..|ss| - 1]) + ss[|ss| - 1]
  }

  lemma ConcatSnoc(ss: seq<string>, x: string)
    ensures Concat(ss + [x]) == Concat(ss) + x
  {
    assert (ss + [x])[..|ss|] == ss;
  }

  /** Exactly i spaces, none when i is not positive. */
  function Indentation(i: int): (r: string)
    ensures |r| == Count(i) && forall k :: 0 <= k < |r| ==> r[k] == ' '
  {
    seq(Count(i), _ => ' ')
  }

  /** ind: appends one space per iteration. */
  method Ind(i: int) returns (v: string)
    ensures v == Indentation(i)
  {
    v := "";
    for c := 0 to Count(i)
      invariant v == Indentation(c)
    {
      v := v + " ";
    }
  }

  /** The name of value c of variable name, as Java's name + c renders it. */
  function ValueName(name: string, c: nat): string
  {
    name + NatToString(c)
  }

  /** The items " name0", …, " name(n-1)" of a declaration, in index order. */
  function ValueItems(name: string, n: nat): (r: seq<string>)
    ensures |r| == n
  {
    seq(n, c requires 0 <= c => " " + ValueName(name, c))
  }

  lemma ValueItemsSnoc(name: string, n: nat)
    ensures ValueItems(name, n + 1) == ValueItems(name, n) + [" " + ValueName(name, n)]
  {
  }

  /** The space-separated list of values of a declaration of n values. */
  function ValueList(name: string, n: int): string
  {
    Concat(ValueItems(name, Count(n)))
  }

  lemma VarDeclStep(name: string, c: nat, v: string)
    requires v == "(" + name + Concat(ValueItems(name, c))
    ensures v + (" " + name + NatToString(c)) == "(" + name + Concat(ValueItems(name, c + 1))
  {
    var item := " " + name + NatToString(c);
    assert item == " " + ValueName(name, c) by {
      SeqAssoc(" ", name, NatToString(c));
    }
    ValueItemsSnoc(name, c);
    ConcatSnoc(ValueItems(name, c), item);
    SeqAssoc("(" + name, Concat(ValueItems(name, c)), item);
  }

  /** varDecl: "(name name0 name1 … name(n-1))". */
  method VarDecl(varname: string, n: int) returns (v: string)
    ensures v == "(" + varname + ValueList(varname, n) + ")"
  {
    v := "(" + varname;
    for c := 0 to Count(n)
      invariant v == "(" + varname + Concat(ValueItems(varname, c))
    {
      VarDeclStep(varname, c, v);
      v := v + (" " + varname + NatToString(c));
    }
    v := v + ")";
  }

  /** The number of spaces in s. */
  function Spaces(s: string): nat
  {
    if |s| == 0 then 0 else Spaces(s[..|s| - 1]) + (if s[|s| - 1] == ' ' then 1 else 0)
  }

  lemma {:induction false} SpacesAppend(s: string, t: string)
    ensures Spaces(s + t) == Spaces(s) + Spaces(t)
    decreases |t|
  {
    if |t| == 0 {
      assert s + t == s;
    } else {
      assert (s + t)[..|s + t| - 1] == s + t[..|t| - 1];
      SpacesAppend(s, t[..|t| - 1]);
    }
  }

  lemma {:induction false} NoSpaces(s: string)
    requires forall k :: 0 <= k < |s| ==> s[k] != ' '
    ensures Spaces(s) == 0
    decreases |s|
  {
    if |s| > 0 {
      NoSpaces(s[..|s| - 1]);
    }
  }

  /**
   * A declaration lists n distinct values: for a name without spaces the
   * list holds exactly one space per value, and different indices give
   * different value names.
   */
  lemma {:induction false} ValueListDeclaresValues(name: string, n: nat)
    requires forall k :: 0 <= k < |name| ==> name[k] != ' '
    ensures Spaces(ValueList(name, n)) == n
    ensures forall c, d :: 0 <= c < d < n ==> ValueName(name, c) != ValueName(name, d)
  {
    ValueListSpaces(name, n);
    forall c, d | 0 <= c < d < n
      ensures ValueName(name, c) != ValueName(name, d)
    {
      ValueNamesDistinct(name, c, d);
    }
  }

  lemma {:induction false} ValueListSpaces(name: string, n: nat)
    requires forall k :: 0 <= k < |name| ==> name[k] != ' '
    ensures Spaces(ValueList(name, n)) == n
  {
    if n > 0 {
      ValueListSpaces(name, n - 1);
      var item := " " + ValueName(name, n - 1);
      ValueItemsSnoc(name, n - 1);
      ConcatSnoc(ValueItems(name, n - 1), item);
      SpacesAppend(ValueList(name, n - 1), item);
      DigitsAreNotSpaces(NatToString(n - 1));
      NoSpaces(ValueName(name, n - 1));
      SpacesAppend(" ", ValueName(name, n - 1));
    }
  }

  lemma ValueNamesDistinct(name: string, c: nat, d: nat)
    requires c != d
    ensures ValueName(name, c) != ValueName(name, d)
  {
    if ValueName(name, c) == ValueName(name, d) {
      assert NatToString(c) == ValueName(name, c)[|name|..];
      assert NatToString(d) == ValueName(name, d)[|name|..];
      NatToStringInjective(c, d);
    }
  }

  lemma DigitsAreNotSpaces(s: string)
    requires AllDigits(s)
    ensures forall k :: 0 <= k < |s| ==> s[k] != ' '
  {
  }

  /** The value of a point mass on pos over values 0 … l-1. */
  function PointMass(l: int, pos: int): seq<real>
  {
    seq(Count(l), c => if c == pos then 1.0 else 0.0)
  }

  /** The literal massX writes for a probability of the point mass. */
  function ProbText(p: real): string
  {
    if p == 1.0 then "1.0" else "0.0"
  }

  /** One SPUDD leaf group " (nameC (p))". */
  function MassGroup(name: string, c: nat, prob: string): string
  {
    " (" + ValueName(name, c) + " (" + prob + "))"
  }

  /** The leaf groups of a distribution over the values of name, in index order. */
  function MassOf(name: string, dist: seq<real>): string
  {
    Concat(seq(|dist|, c requires 0 <= c < |dist| => MassGroup(name, c, ProbText(dist[c]))))
  }

  lemma MassOfSnoc(name: string, dist: seq<real>, p: real)
    ensures MassOf(name, dist + [p]) == MassOf(name, dist) + MassGroup(name, |dist|, ProbText(p))
  {
    var d' := dist + [p];
    var groups := seq(|dist|, c requires 0 <= c < |dist| => MassGroup(name, c, ProbText(dist[c])));
    assert seq(|d'|, c requires 0 <= c < |d'| => MassGroup(name, c, ProbText(d'[c])))
      == groups + [MassGroup(name, |dist|, ProbText(p))];
    ConcatSnoc(groups, MassGroup(name, |dist|, ProbText(p)));
  }

  lemma MassXStep(name: string, c: nat, pos: int, v: string, prob: string)
    requires v == MassOf(name, PointMass(c, pos))
    requires prob == if c == pos then "1.0" else "0.0"
    ensures v + (" (" + name + NatToString(c) + " (" + prob + "))") == MassOf(name, PointMass(c + 1, pos))
  {
    var p: real := if c == pos then 1.0 else 0.0;
    assert PointMass(c + 1, pos) == PointMass(c, pos) + [p];
    MassOfSnoc(name, PointMass(c, pos), p);
    assert ProbText(p) == prob;
    assert " (" + name + NatToString(c) + " (" + prob + "))" == MassGroup(name, c, prob) by {
      SeqAssoc(" (", name, NatToString(c));
    }
  }

  /** massX: the leaf groups of the distribution with all mass on pos. */
  method MassX(varname: string, l: int, pos: int) returns (v: string)
    ensures v == MassOf(varname, PointMass(l, pos))
  {
    v := "";
    var prob := "";
    for c := 0 to Count(l)
      invariant v == MassOf(varname, PointMass(c, pos))
    {
      if c == pos {
        prob := "1.0";
      } else {
        prob := "0.0";
      }
      MassXStep(varname, c, pos, v, prob);
      v := v + (" (" + varname + NatToString(c) + " (" + prob + "))");
    }
  }

  /**
   * The point mass is a distribution exactly when pos names a value: it
   * has total mass 1 then, and no mass at all when pos is out of range.
   */
  lemma {:induction false} PointMassTotal(l: int, pos: int)
    ensures Sum(PointMass(l, pos)) == if 0 <= pos < l then 1.0 else 0.0
    decreases Count(l)
  {
    if Count(l) > 0 {
      PointMassTotal(l - 1, pos);
      assert PointMass(l, pos) == PointMass(l - 1, pos) + [if l - 1 == pos then 1.0 else 0.0];
      SumSnoc(PointMass(l - 1, pos), if l - 1 == pos then 1.0 else 0.0);
    }
  }

  /** One-hot placement: value c gets probability 1 exactly when c == pos. */
  lemma PointMassOneHot(l: int, pos: int, c: int)
    requires 0 <= c < l
    ensures PointMass(l, pos)[c] == 1.0 <==> c == pos
    ensures PointMass(l, pos)[c] == 0.0 <==> c != pos
  {
  }

  /** Row c of the location diagram: when apos is c, aloc' is c for certain. */
  function LocationRow(n: int, c: nat): string
  {
    Indentation(2) + "(apos" + NatToString(c) + "\n"
    + Indentation(4) + "(aloc' " + MassOf("aloc", PointMass(n, c)) + "))\n"
  }

  /** Rows 0 … c-1 of the location diagram over n locations. */
  function LocationRows(n: int, c: nat): (r: seq<string>)
    ensures |r| == c
  {
    seq(c, k requires 0 <= k => LocationRow(n, k))
  }

  lemma LocationRowsSnoc(n: int, c: nat)
    ensures LocationRows(n, c + 1) == LocationRows(n, c) + [LocationRow(n, c)]
  {
  }

  lemma LocationRowsStep(n: int, c: nat, v: string, i2: string, i4: string, m: string)
    requires v == "(apos'\n" + Concat(LocationRows(n, c))
    requires i2 == Indentation(2) && i4 == Indentation(4) && m == MassOf("aloc", PointMass(n, c))
    ensures v + (i2 + "(apos" + NatToString(c) + "\n") + (i4 + "(aloc' " + m + "))\n")
      == "(apos'\n" + Concat(LocationRows(n, c + 1))
  {
    var head, tail := i2 + "(apos" + NatToString(c) + "\n", i4 + "(aloc' " + m + "))\n";
    assert head + tail == LocationRow(n, c);
    LocationRowsSnoc(n, c);
    ConcatSnoc(LocationRows(n, c), LocationRow(n, c));
    SeqAssoc(v, head, tail);
    SeqAssoc("(apos'\n", Concat(LocationRows(n, c)), LocationRow(n, c));
  }

  lemma SeqAssoc<T>(a: seq<T>, b: seq<T>, c: seq<T>)
    ensures a + b + c == a + (b + c)
  {
  }

  /** The location decision diagram over n locations. */
  function LocationDd(n: int): string
  {
    "(apos'\n" + Concat(LocationRows(n, Count(n))) + ")\n"
  }

  /** ldd */
  method Ldd(g: Grid) returns (v: string)
    ensures v == LocationDd(g.Size())
  {
    var n := g.Size();
    v := "(apos'\n";
    for c := 0 to Count(n)
      invariant v == "(apos'\n" + Concat(LocationRows(n, c))
    {
      var i2 := Ind(2);
      var i4 := Ind(4);
      var m := MassX("aloc", n, c);
      LocationRowsStep(n, c, v, i2, i4, m);
      v := v + (i2 + "(apos" + NatToString(c) + "\n");
      v := v + (i4 + "(aloc' " + m + "))\n");
    }
    v := v + ")\n";
  }

  /**
   * The robot observes its own location: every row of the location diagram
   * holds a distribution of total mass 1 whose only mass is on the row's
   * own location.
   */
  lemma LocationRowExact(n: int, c: nat)
    requires c < n
    ensures Sum(PointMass(n, c)) == 1.0
    ensures forall k :: 0 <= k < n ==> (PointMass(n, c)[k] == 1.0 <==> k == c)
  {
    PointMassTotal(n, c);
  }

  /** The reward for agent location c and wumpus location k. */
  function Collocated(c: int, k: int): real
  {
    if c == k then 10.0 else 0.0
  }

  /** The leaf that collocatedReward writes for wumpus location k and reward r. */
  function RewardLeaf(k: nat, r: real): string
  {
    if r == 10.0 then Indentation(4) + "(wpos" + NatToString(k) + " (10.0))\n"
    else Indentation(4) + "(wpos" + NatToString(k) + " (0.0)) \n"
  }

  /** The leaves for wumpus locations 0 … k-1 in the row of agent location c. */
  function RewardLeaves(c: nat, k: nat): (r: seq<string>)
    ensures |r| == k
  {
    seq(k, j requires 0 <= j => RewardLeaf(j, Collocated(c, j)))
  }

  lemma RewardLeavesSnoc(c: nat, k: nat)
    ensures RewardLeaves(c, k + 1) == RewardLeaves(c, k) + [RewardLeaf(k, Collocated(c, k))]
  {
  }

  /** Row c of the reward diagram over n locations. */
  function RewardRow(n: int, c: nat): string
  {
    Indentation(2) + "(apos" + NatToString(c) + " (wpos\n"
    + Concat(RewardLeaves(c, Count(n))) + Indentation(2) + "))\n"
  }

  /** Rows 0 … c-1 of the reward diagram over n locations. */
  function RewardRows(n: int, c: nat): (r: seq<string>)
    ensures |r| == c
  {
    seq(c, j requires 0 <= j => RewardRow(n, j))
  }

  lemma RewardRowsSnoc(n: int, c: nat)
    ensures RewardRows(n, c + 1) == RewardRows(n, c) + [RewardRow(n, c)]
  {
  }

  /** The collocation reward decision diagram over n locations. */
  function CollocatedRewardDd(n: int): string
  {
    "(apos\n" + Concat(RewardRows(n, Count(n))) + ")\n"
  }

  lemma RewardLeavesStep(c: nat, k: nat, v: string, prefix: string, leaf: string)
    requires v == prefix + Concat(RewardLeaves(c, k))
    requires leaf == RewardLeaf(k, Collocated(c, k))
    ensures v + leaf == prefix + Concat(RewardLeaves(c, k + 1))
  {
    RewardLeavesSnoc(c, k);
    ConcatSnoc(RewardLeaves(c, k), leaf);
    SeqAssoc(prefix, Concat(RewardLeaves(c, k)), leaf);
  }

  lemma RewardRowsStep(n: int, c: nat, v: string, rows: string, head: string, tail: string)
    requires rows == "(apos\n" + Concat(RewardRows(n, c))
    requires v == rows + head + Concat(RewardLeaves(c, Count(n)))
    requires head == Indentation(2) + "(apos" + NatToString(c) + " (wpos\n" && tail == Indentation(2) + "))\n"
    ensures v + tail == "(apos\n" + Concat(RewardRows(n, c + 1))
  {
    var row := head + Concat(RewardLeaves(c, Count(n))) + tail;
    assert row == RewardRow(n, c);
    RewardRowsSnoc(n, c);
    ConcatSnoc(RewardRows(n, c), row);
    SeqAssoc("(apos\n", Concat(RewardRows(n, c)), row);
    SeqAssoc(rows, head, Concat(RewardLeaves(c, Count(n))));
    SeqAssoc(rows, head + Concat(RewardLeaves(c, Count(n))), tail);
  }

  /** collocatedReward */
  method CollocatedReward(g: Grid) returns (v: string)
    ensures v == CollocatedRewardDd(g.Size())
  {
    var n := g.Size();
    v := "(apos\n";
    for c := 0 to Count(n)
      invariant v == "(apos\n" + Concat(RewardRows(n, c))
    {
      ghost var rows := v;
      var i2 := Ind(2);
      v := v + (i2 + "(apos" + NatToString(c) + " (wpos\n");
      ghost var prefix := v;
      for k := 0 to Count(n)
        invariant v == prefix + Concat(RewardLeaves(c, k))
      {
        var i4 := Ind(4);
        var leaf;
        if k == c {
          leaf := i4 + "(wpos" + NatToString(k) + " (10.0))\n";
        } else {
          leaf := i4 + "(wpos" + NatToString(k) + " (0.0)) \n";
        }
        RewardLeavesStep(c, k, v, prefix, leaf);
        v := v + leaf;
      }
      var i2' := Ind(2);
      RewardRowsStep(n, c, v, rows, i2 + "(apos" + NatToString(c) + " (wpos\n", i2' + "))\n");
      v := v + (i2' + "))\n");
    }
    v := v + ")\n";
  }

  /**
   * The leaf for agent location c and wumpus location k carries 10.0 exactly
   * when the two coincide, and 0.0 otherwise.
   */
  lemma RewardLeafCollocated(c: nat, k: nat)
    ensures RewardLeaf(k, Collocated(c, k))
      == Indentation(4) + "(wpos" + NatToString(k) + (if k == c then " (10.0))\n" else " (0.0)) \n")
  {
  }

  /** Each row rewards exactly one wumpus location, with 10. */
  lemma {:induction false} RewardRowTotal(n: int, c: nat)
    ensures Sum(seq(Count(n), k => Collocated(c, k))) == if c < n then 10.0 else 0.0
    decreases Count(n)
  {
    if Count(n) > 0 {
      RewardRowTotal(n - 1, c);
      assert seq(Count(n), k => Collocated(c, k))
        == seq(Count(n - 1), k => Collocated(c, k)) + [Collocated(c, n - 1)];
      SumSnoc(seq(Count(n - 1), k => Collocated(c, k)), Collocated(c, n - 1));
    }
  }
}

