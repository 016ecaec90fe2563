/** The queens counter: `chk` tests a cell against the whole board, `go` backtracks over
    the cells in row-major order.  The board size 8 is the parameter `size` here. */
module Queens {
  import opened Basics

  datatype Cell = Cell(x: nat, y: nat)

  predicate Attacks(a: Cell, b: Cell) {
    a.x == b.x || a.y == b.y || a.x + a.y == b.x + b.y || a.x + b.y == b.x + a.y
  }

  /** No two queens attack each other. */
  ghost predicate Peaceful(q: set<Cell>) {
    forall a, b {:trigger Attacks(a, b)} :: a in q && b in q && a != b ==> !Attacks(a, b)
  }

  /** Row-major order. */
  predicate Before(a: Cell, b: Cell) {
    a.y < b.y || (a.y == b.y && a.x < b.x)
  }

  /** All cells of the board from `c` on in row-major order. */
  ghost function CellsFrom(size: nat, c: Cell): set<Cell> {
    set d | d in AllCells(size) && !Before(d, c)
  }

  ghost function AllCells(size: nat): (cells: set<Cell>)
    ensures forall c :: c in cells <==> c.x < size && c.y < size
  {
    Block(size, size)
  }

  /** The cells of the first `rows` rows. */
  ghost function Block(size: nat, rows: nat): (cells: set<Cell>)
    ensures forall c :: c in cells <==> c.x < size && c.y < rows
  {
    if rows == 0 then {} else Block(size, rows - 1) + Row(rows - 1, size)
  }

  /** The first `k` cells of row `y`. */
  ghost function Row(y: nat, k: nat): (cells: set<Cell>)
    ensures forall c :: c in cells <==> c.x < k && c.y == y
  {
    if k == 0 then {} else Row(y, k - 1) + {Cell(k - 1, y)}
  }

  /** The queens `s` neither attack each other nor the queens `q`. */
  ghost predicate Joins(q: set<Cell>, s: set<Cell>) {
    Peaceful(s) && forall a, b {:trigger Attacks(a, b)} :: a in q && b in s && a != b ==> !Attacks(a, b)
  }

  lemma JoinsIsPeaceful(q: set<Cell>, s: set<Cell>)
    requires Peaceful(q)
    ensures Joins(q, s) <==> Peaceful(q + s)
  {
    forall a, b | a in q && b in s && a != b ensures Attacks(a, b) == Attacks(b, a) {
    }
    if Peaceful(q + s) {
      assert forall a, b {:trigger Attacks(a, b)} :: a in q && b in s ==> a in q + s && b in q + s;
      assert forall a, b {:trigger Attacks(a, b)} :: a in s && b in s ==> a in q + s && b in q + s;
    }
    if Joins(q, s) {
      forall a, b | a in q + s && b in q + s && a != b ensures !Attacks(a, b) {
        assert Attacks(a, b) == Attacks(b, a);
      }
    }
  }

  /** The ways to add exactly `k` queens, on free cells among `cells`, and keep the peace. */
  ghost function Adding(cells: set<Cell>, q: set<Cell>, k: nat): set<set<Cell>> {
    set s | s <= cells - q && |s| == k && Joins(q, s)
  }

  /** ... on cells from `c` on in row-major order. */
  ghost function Completions(size: nat, q: set<Cell>, c: Cell, k: nat): set<set<Cell>> {
    Adding(CellsFrom(size, c), q, k)
  }

  /** All solutions of the puzzle. */
  ghost function Solutions(size: nat): set<set<Cell>> {
    set s | s <= CellsFrom(size, Cell(0, 0)) && |s| == size && Peaceful(s)
  }

  // ----- counting

  lemma NoneLeft(cells: set<Cell>, q: set<Cell>)
    ensures Adding(cells, q, 0) == {{}}
  {
  }

  /** Completions that leave cell `c` empty are the completions on the other cells. */
  lemma SkipCell(cells: set<Cell>, q: set<Cell>, c: Cell, k: nat)
    ensures (set s | s in Adding(cells, q, k) && c !in s) == Adding(cells - {c}, q, k)
  {
    forall s: set<Cell> ensures s in Adding(cells, q, k) && c !in s <==> s in Adding(cells - {c}, q, k) {
      assert s <= (cells - {c}) - q <==> s <= cells - q && c !in s;
    }
  }

  ghost function WithCell(ss: set<set<Cell>>, c: Cell): set<set<Cell>> {
    set s | s in ss :: s + {c}
  }

  lemma {:induction false} WithCellSize(ss: set<set<Cell>>, c: Cell)
    requires forall s :: s in ss ==> c !in s
    ensures |WithCell(ss, c)| == |ss|
  {
    if ss == {} {
      assert WithCell(ss, c) == {};
    } else {
      var s :| s in ss;
      WithCellSize(ss - {s}, c);
      forall t | t in ss && t + {c} == s + {c} ensures t == s {
        assert t == (t + {c}) - {c} == (s + {c}) - {c} == s;
      }
      assert WithCell(ss, c) == WithCell(ss - {s}, c) + {s + {c}};
      assert s + {c} !in WithCell(ss - {s}, c);
    }
  }

  lemma UsedIsWith(cells: set<Cell>, q: set<Cell>, c: Cell, k: nat, s: set<Cell>)
    requires k > 0 && c in s && s in Adding(cells, q, k)
    ensures s - {c} in Adding(cells, q + {c}, k - 1) && s == (s - {c}) + {c}
  {
    assert |s - {c}| == k - 1;
  }

  lemma WithIsUsed(cells: set<Cell>, q: set<Cell>, c: Cell, k: nat, t: set<Cell>)
    requires c in cells - q && k > 0 && Unattacked(q, c) && t in Adding(cells, q + {c}, k - 1)
    ensures c !in t && t + {c} in Adding(cells, q, k)
  {
    var s := t + {c};
    assert |s| == k;
    assert s <= cells - q;
    forall a, b | a in s && b in s && a != b ensures !Attacks(a, b) {
      assert c in q + {c};
      assert Attacks(a, b) == Attacks(b, a);
    }
    forall a, b | a in q && b in s && a != b ensures !Attacks(a, b) {
      assert a in q + {c};
    }
  }

  /** Completions that use cell `c` are those of the board with a queen on `c`. */
  lemma UseCell(cells: set<Cell>, q: set<Cell>, c: Cell, k: nat)
    requires c in cells - q && k > 0 && Unattacked(q, c)
    ensures (set s | s in Adding(cells, q, k) && c in s) == WithCell(Adding(cells, q + {c}, k - 1), c)
  {
    var used := set s | s in Adding(cells, q, k) && c in s;
    var rest := Adding(cells, q + {c}, k - 1);
    forall s | s in used ensures s in WithCell(rest, c) {
      UsedIsWith(cells, q, c, k, s);
    }
    forall s | s in WithCell(rest, c) ensures s in used {
      var t :| t in rest && s == t + {c};
      WithIsUsed(cells, q, c, k, t);
    }
  }

  predicate Unattacked(q: set<Cell>, c: Cell) {
    forall a :: a in q ==> !Attacks(a, c)
  }

  lemma CountUsed(cells: set<Cell>, q: set<Cell>, c: Cell, k: nat)
    requires k > 0 && c in cells
    ensures |set s | s in Adding(cells, q, k) && c in s| ==
      if Unattacked(q, c) then |Adding(cells, q + {c}, k - 1)| else 0
  {
    var used := set s | s in Adding(cells, q, k) && c in s;
    if Unattacked(q, c) {
      assert c !in q by {
        if c in q { assert Attacks(c, c); }
      }
      UseCell(cells, q, c, k);
      var rest := Adding(cells, q + {c}, k - 1);
      forall s | s in rest ensures c !in s {
        assert c in q + {c};
      }
      WithCellSize(rest, c);
    } else {
      var a :| a in q && Attacks(a, c);
      forall s | s in Adding(cells, q, k) ensures c !in s {
        assert c in s ==> a == c;
      }
      assert used == {};
    }
  }

  /** One cell: either it is attacked, or the completions split into those with and
      those without a queen on it. */
  lemma CountCell(cells: set<Cell>, q: set<Cell>, c: Cell, k: nat)
    requires k > 0 && c in cells
    ensures |Adding(cells, q, k)| == |Adding(cells - {c}, q, k)| +
      if Unattacked(q, c) then |Adding(cells, q + {c}, k - 1)| else 0
  {
    var all := Adding(cells, q, k);
    SkipCell(cells, q, c, k);
    CountUsed(cells, q, c, k);
    SplitOnCell(all, c);
  }

  lemma SplitOnCell(all: set<set<Cell>>, c: Cell)
    ensures |all| == |set s | s in all && c in s| + |set s | s in all && c !in s|
  {
    var used := set s | s in all && c in s;
    var unused := set s | s in all && c !in s;
    assert all == used + unused && used !! unused;
  }

  // ----- the order of cells

  lemma NextInRow(size: nat, x: nat, y: nat)
    requires x < size && y < size
    ensures Cell(x, y) in CellsFrom(size, Cell(x, y)) && Cell(x, y) !in CellsFrom(size, Cell(x + 1, y))
    ensures CellsFrom(size, Cell(x, y)) - {Cell(x, y)} == CellsFrom(size, Cell(x + 1, y))
  {
  }

  /** The end of a row is as good as the start of the next. */
  lemma NextRow(size: nat, y: nat)
    requires y < size
    ensures CellsFrom(size, Cell(size, y)) == CellsFrom(size, Cell(0, y + 1))
  {
  }

  /** What the two sets of sets contain, in terms of columns, rows and diagonals. */
  lemma SolutionsAre(size: nat, s: set<Cell>)
    ensures s in Solutions(size) <==>
      && |s| == size && (forall a :: a in s ==> a.x < size && a.y < size)
      && forall a, b :: a in s && b in s && a != b ==>
           a.x != b.x && a.y != b.y && a.x - a.y != b.x - b.y && a.x + a.y != b.x + b.y
  {
    NobodyAttacks(s, s);
  }

  lemma CompletionsAre(size: nat, q: set<Cell>, c: Cell, k: nat, s: set<Cell>)
    ensures s in Completions(size, q, c, k) <==>
      && |s| == k && (forall a :: a in s ==> a.x < size && a.y < size && a !in q)
      && (forall a :: a in s ==> a.y > c.y || (a.y == c.y && a.x >= c.x))
      && (forall a, b :: a in s && b in s && a != b ==>
            a.x != b.x && a.y != b.y && a.x - a.y != b.x - b.y && a.x + a.y != b.x + b.y)
      && (forall a, b :: a in q && b in s && a != b ==>
            a.x != b.x && a.y != b.y && a.x - a.y != b.x - b.y && a.x + a.y != b.x + b.y)
  {
    NobodyAttacks(s, s);
    NobodyAttacks(q, s);
    FromHere(size, q, c, s);
  }

  lemma FromHere(size: nat, q: set<Cell>, c: Cell, s: set<Cell>)
    ensures s <= CellsFrom(size, c) - q <==>
      && (forall a :: a in s ==> a.x < size && a.y < size && a !in q)
      && forall a :: a in s ==> a.y > c.y || (a.y == c.y && a.x >= c.x)
  {
    var cells := CellsFrom(size, c) - q;
    forall a ensures a in cells <==>
      a.x < size && a.y < size && a !in q && (a.y > c.y || (a.y == c.y && a.x >= c.x))
    {
    }
  }

  lemma NobodyAttacks(q: set<Cell>, s: set<Cell>)
    ensures (forall a, b {:trigger Attacks(a, b)} :: a in q && b in s && a != b ==> !Attacks(a, b)) <==>
      forall a, b :: a in q && b in s && a != b ==>
        a.x != b.x && a.y != b.y && a.x - a.y != b.x - b.y && a.x + a.y != b.x + b.y
  {
    forall a: Cell, b: Cell
      ensures Attacks(a, b) <==> a.x == b.x || a.y == b.y || a.x - a.y == b.x - b.y || a.x + a.y == b.x + b.y
    {
    }
  }

  /** The number of completions, by queens set so far, column, row, and queens to come. */
  type Counter = (set<Cell>, nat, nat, nat) -> nat

  ghost predicate Counts(size: nat, f: Counter) {
    forall q, x, y, k {:trigger Completions(size, q, Cell(x, y), k)} ::
      f(q, x, y, k) == |Completions(size, q, Cell(x, y), k)|
  }

  lemma CounterFor(size: nat) returns (f: Counter)
    ensures Counts(size, f)
  {
    f := (q, x, y, k) => |Completions(size, q, Cell(x, y), k)|;
  }

  lemma CountIs(size: nat, f: Counter, q: set<Cell>, x: nat, y: nat, k: nat)
    requires Counts(size, f)
    ensures f(q, x, y, k) == |Completions(size, q, Cell(x, y), k)|
  {
  }

  lemma CountFull(size: nat, f: Counter, q: set<Cell>, x: nat, y: nat)
    requires Counts(size, f)
    ensures f(q, x, y, 0) == 1
  {
    CountIs(size, f, q, x, y, 0);
    NoneLeft(CellsFrom(size, Cell(x, y)), q);
  }

  lemma CountRow(size: nat, f: Counter, q: set<Cell>, y: nat, k: nat)
    requires Counts(size, f) && y < size
    ensures f(q, size, y, k) == f(q, 0, y + 1, k)
  {
    CountIs(size, f, q, size, y, k);
    CountIs(size, f, q, 0, y + 1, k);
    NextRow(size, y);
  }

  /** One cell accounts for the difference of two counts. */
  lemma CountStep(size: nat, f: Counter, q: set<Cell>, x: nat, y: nat, k: nat)
    requires Counts(size, f) && k > 0 && x < size && y < size
    ensures f(q, x, y, k) ==
      f(q, x + 1, y, k) + if Unattacked(q, Cell(x, y)) then f(q + {Cell(x, y)}, x, y, k - 1) else 0
  {
    CountIs(size, f, q, x, y, k);
    CountIs(size, f, q, x + 1, y, k);
    CountIs(size, f, q + {Cell(x, y)}, x, y, k - 1);
    NextInRow(size, x, y);
    CountCell(CellsFrom(size, Cell(x, y)), q, Cell(x, y), k);
  }

  lemma EndOfBoard(size: nat, f: Counter, q: set<Cell>, x: nat, k: nat)
    requires Counts(size, f) && k > 0
    ensures f(q, x, size, k) == 0
  {
    CountIs(size, f, q, x, size, k);
    assert CellsFrom(size, Cell(x, size)) == {};
    assert Adding({}, q, k) == {};
  }

  lemma PeacefulWith(q: set<Cell>, c: Cell)
    requires Peaceful(q) && Unattacked(q, c)
    ensures Peaceful(q + {c})
  {
  }

  // ----- the flat board

  /** Where row `y` starts in the array. */
  function RowStart(size: nat, y: nat): nat {
    if y == 0 then 0 else size + RowStart(size, y - 1)
  }

  lemma {:induction false} RowStartIs(size: nat, y: nat)
    ensures RowStart(size, y) == size * y
  {
    if y != 0 {
      RowStartIs(size, y - 1);
      assert size * y == size + size * (y - 1);
    }
  }

  lemma {:induction false} RowsApart(size: nat, y: nat, y': nat)
    requires y < y'
    ensures RowStart(size, y) + size <= RowStart(size, y')
  {
    if y + 1 < y' {
      RowsApart(size, y, y' - 1);
    }
  }

  /** Where cell (x, y) is in the array. */
  function Index(size: nat, x: nat, y: nat): nat {
    x + RowStart(size, y)
  }

  lemma IndexInRange(size: nat, x: nat, y: nat)
    requires x < size && y < size
    ensures Index(size, x, y) < RowStart(size, size)
  {
    RowsApart(size, y, size);
  }

  lemma IndexInjective(size: nat, x: nat, y: nat, x': nat, y': nat)
    requires x < size && x' < size && Index(size, x, y) == Index(size, x', y')
    ensures x == x' && y == y'
  {
    if y < y' {
      RowsApart(size, y, y');
    } else if y' < y {
      RowsApart(size, y', y);
    }
  }

  ghost predicate IsBoard(size: nat, t: seq<int>, q: set<Cell>) {
    && |t| == RowStart(size, size)
    && (forall c :: c in q ==> c.x < size && c.y < size)
    && (forall x, y :: 0 <= x < size && 0 <= y < size ==>
          Index(size, x, y) < |t| && t[Index(size, x, y)] == if Cell(x, y) in q then 1 else 0)
  }

  lemma BoardAt(size: nat, t: seq<int>, q: set<Cell>, x: nat, y: nat)
    requires IsBoard(size, t, q) && x < size && y < size
    ensures Index(size, x, y) < |t| && t[Index(size, x, y)] == if Cell(x, y) in q then 1 else 0
  {
  }

  /** Placing a queen. */
  lemma BoardPlace(size: nat, t: seq<int>, q: set<Cell>, x: nat, y: nat)
    requires IsBoard(size, t, q) && x < size && y < size && Cell(x, y) !in q
    ensures Index(size, x, y) < |t|
    ensures IsBoard(size, t[Index(size, x, y) := 1], q + {Cell(x, y)})
  {
    BoardAt(size, t, q, x, y);
    var i := Index(size, x, y);
    forall x', y' | 0 <= x' < size && 0 <= y' < size
      ensures Index(size, x', y') < |t|
      ensures t[i := 1][Index(size, x', y')] == if Cell(x', y') in q + {Cell(x, y)} then 1 else 0
    {
      BoardAt(size, t, q, x', y');
      if Index(size, x', y') == i {
        IndexInjective(size, x, y, x', y');
      }
    }
  }

  /** The cells that `chk` looks at in round `i`. */
  predicate Sees(x: nat, y: nat, i: nat, c: Cell) {
    || c == Cell(x, i) || c == Cell(i, y)
    || c == Cell(x + i, y + i)
    || (c.x == x + i && c.y + i == y)
    || (c.x + i == x && c.y == y + i)
    || (c.x + i == x && c.y + i == y)
  }

  /** Some round sees a cell exactly when the cell is attacked. */
  lemma SeesAttacks(size: nat, x: nat, y: nat, c: Cell)
    requires x < size && y < size && c.x < size && c.y < size
    ensures (exists i :: 0 <= i < size && Sees(x, y, i, c)) <==> Attacks(c, Cell(x, y))
  {
    if Attacks(c, Cell(x, y)) {
      if c.x == x {
        assert Sees(x, y, c.y, c);
      } else if c.y == y {
        assert Sees(x, y, c.x, c);
      } else if c.x > x {
        assert Sees(x, y, c.x - x, c);
      } else {
        assert Sees(x, y, x - c.x, c);
      }
    }
  }

  ghost predicate SeenIn(q: set<Cell>, x: nat, y: nat, i: nat) {
    exists c :: c in q && Sees(x, y, i, c)
  }

  /** A queen is seen in round `i` when it stands on one of the six cells on the board. */
  lemma RoundSees(size: nat, q: set<Cell>, x: nat, y: nat, i: nat)
    requires forall c :: c in q ==> c.x < size && c.y < size
    requires x < size && y < size && i < size
    ensures SeenIn(q, x, y, i) <==>
      || Cell(x, i) in q || Cell(i, y) in q
      || (x + i < size && y + i < size && Cell(x + i, y + i) in q)
      || (x + i < size && y - i >= 0 && Cell(x + i, y - i) in q)
      || (x - i >= 0 && y + i < size && Cell(x - i, y + i) in q)
      || (x - i >= 0 && y - i >= 0 && Cell(x - i, y - i) in q)
  {
    assert Sees(x, y, i, Cell(x, i)) && Sees(x, y, i, Cell(i, y)) && Sees(x, y, i, Cell(x + i, y + i));
    assert y - i >= 0 ==> Sees(x, y, i, Cell(x + i, y - i));
    assert x - i >= 0 ==> Sees(x, y, i, Cell(x - i, y + i));
    assert x - i >= 0 && y - i >= 0 ==> Sees(x, y, i, Cell(x - i, y - i));
    if c :| c in q && Sees(x, y, i, c) {
      assert c == Cell(c.x, c.y);
    }
  }

  lemma SeenInSomeRound(size: nat, q: set<Cell>, x: nat, y: nat)
    requires forall c :: c in q ==> c.x < size && c.y < size
    requires x < size && y < size
    ensures (forall i :: 0 <= i < size ==> !SeenIn(q, x, y, i)) <==> Unattacked(q, Cell(x, y))
  {
    forall c | c in q
      ensures (exists i :: 0 <= i < size && Sees(x, y, i, c)) <==> Attacks(c, Cell(x, y))
    {
      SeesAttacks(size, x, y, c);
    }
    if c :| c in q && Attacks(c, Cell(x, y)) {
      var i :| 0 <= i < size && Sees(x, y, i, c);
      assert SeenIn(q, x, y, i);
    }
  }

  class Board {
    const size: nat
    const t: array<int>
    var N: int
    ghost var queens: set<Cell>

    ghost predicate Valid()
      reads this, t
    {
      IsBoard(size, t[..], queens)
    }

    constructor (size: nat)
      ensures Valid() && fresh(t) && this.size == size && N == 0 && queens == {}
    {
      this.size := size;
      N := 0;
      queens := {};
      RowStartIs(size, size);
      t := new int[size * size](_ => 0);
      new;
      forall x, y | 0 <= x < size && 0 <= y < size ensures Index(size, x, y) < t.Length {
        IndexInRange(size, x, y);
      }
    }

    /** What is stored for cell (x, y): one for a queen, else zero. */
    method At(x: nat, y: nat) returns (v: int)
      requires Valid() && x < size && y < size
      ensures v == if Cell(x, y) in queens then 1 else 0
    {
      BoardAt(size, t[..], queens, x, y);
      RowStartIs(size, y);
      v := t[x + size * y];
    }

    /** The guarded accesses to the diagonals in `chk`. */
    method AtIfOnBoard(x: int, y: int) returns (v: int)
      requires Valid()
      ensures v == if 0 <= x < size && 0 <= y < size && Cell(x, y) in queens then 1 else 0
    {
      if 0 <= x < size && 0 <= y < size {
        v := At(x, y);
      } else {
        v := 0;
      }
    }

    /** One round of the loop in `chk`: the six cells at distance `i`. */
    method Round(x: nat, y: nat, i: nat) returns (r: int)
      requires Valid() && x < size && y < size && i < size
      ensures r >= 0
      ensures r == 0 <==> !SeenIn(queens, x, y, i)
    {
      RoundSees(size, queens, x, y, i);
      var a := At(x, i);
      var b := At(i, y);
      var c := AtIfOnBoard(x + i, y + i);
      var d := AtIfOnBoard(x + i, y - i);
      var e := AtIfOnBoard(x - i, y + i);
      var f := AtIfOnBoard(x - i, y - i);
      r := a + b + c + d + e + f;
    }

    /** `chk`: zero if and only if no queen attacks, or stands on, cell (x, y). */
    method Chk(x: nat, y: nat) returns (r: int)
      requires Valid() && x < size && y < size
      ensures r >= 0
      ensures r == 0 <==> Unattacked(queens, Cell(x, y))
      ensures r == 0 <==> forall a :: a in queens ==>
        a.x != x && a.y != y && a.x - a.y != x - y && a.x + a.y != x + y
    {
      r := 0;
      var i := 0;
      while i < size
        invariant i <= size && r >= 0
        invariant r == 0 <==> forall j :: 0 <= j < i ==> !SeenIn(queens, x, y, j)
      {
        var v := Round(x, y, i);
        r := r + v;
        i := i + 1;
      }
      SeenInSomeRound(size, queens, x, y);
    }

    /** `go`: the counter grows by the number of ways to complete the board with queens on
        cells from (x, y) on; the board is left as it was found. */
    method Go(n: nat, x: nat, y: nat, ghost q: set<Cell>)
      requires Valid() && queens == q && Peaceful(q) && n == |q| <= size
      requires x <= size && y <= size
      modifies this`N, this`queens, t
      ensures Valid() && queens == q && t[..] == old(t[..])
      ensures N == old(N) + |Completions(size, q, Cell(x, y), size - n)|
      decreases size - n, 2
    {
      ghost var f := CounterFor(size);
      CountIs(size, f, q, x, y, size - n);
      if n == size {
        CountFull(size, f, q, x, y);
        N := N + 1;
        return;
      }
      ghost var before, total := t[..], N + f(q, x, y, size - n);
      var cx: nat, cy: nat := x, y;
      while cy < size
        invariant cx <= size && cy <= size
        invariant Valid() && queens == q && t[..] == before
        invariant N + f(q, cx, cy, size - n) == total
        decreases size - cy
      {
        GoRow(n, cx, cy, q, f);
        cx := 0;
        cy := cy + 1;
      }
      EndOfBoard(size, f, q, cx, size - n);
    }

    /** The inner loop of `go`: the rest of one row. */
    method GoRow(n: nat, x: nat, y: nat, ghost q: set<Cell>, ghost f: Counter)
      requires Valid() && queens == q && Peaceful(q) && n == |q| < size
      requires x <= size && y < size && Counts(size, f)
      modifies this`N, this`queens, t
      ensures Valid() && queens == q && t[..] == old(t[..])
      ensures N + f(q, 0, y + 1, size - n) == old(N) + f(q, x, y, size - n)
      decreases size - n, 1
    {
      ghost var before, total := t[..], N + f(q, x, y, size - n);
      var cx: nat := x;
      while cx < size
        invariant cx <= size
        invariant Valid() && queens == q && t[..] == before
        invariant N + f(q, cx, y, size - n) == total
      {
        TryCell(n, cx, y, q, f);
        cx := cx + 1;
      }
      CountRow(size, f, q, y, size - n);
    }

    /** The body of the inner loop of `go`. */
    method TryCell(n: nat, x: nat, y: nat, ghost q: set<Cell>, ghost f: Counter)
      requires Valid() && queens == q && Peaceful(q) && n == |q| < size
      requires x < size && y < size && Counts(size, f)
      modifies this`N, this`queens, t
      ensures Valid() && queens == q && t[..] == old(t[..])
      ensures N + f(q, x + 1, y, size - n) == old(N) + f(q, x, y, size - n)
      decreases size - n, 0
    {
      ghost var before := t[..];
      CountStep(size, f, q, x, y, size - n);
      var r := Chk(x, y);
      if r == 0 {
        Place(x, y);
        CountIs(size, f, q + {Cell(x, y)}, x, y, size - n - 1);
        Go(n + 1, x, y, q + {Cell(x, y)});
        Take(x, y, q, before);
      }
    }

    /** `t[x + 8*y]++` on a free cell. */
    method Place(x: nat, y: nat)
      requires Valid() && x < size && y < size && Peaceful(queens)
      requires Unattacked(queens, Cell(x, y))
      modifies this`queens, t
      ensures Valid() && Peaceful(queens) && queens == old(queens) + {Cell(x, y)}
      ensures Cell(x, y) !in old(queens)
      ensures Index(size, x, y) < t.Length && t[..] == old(t[..])[Index(size, x, y) := 1]
    {
      ghost var c := Cell(x, y);
      assert c !in queens by { if c in queens { assert Attacks(c, c); } }
      BoardPlace(size, t[..], queens, x, y);
      BoardAt(size, t[..], queens, x, y);
      PeacefulWith(queens, c);
      RowStartIs(size, y);
      t[x + size * y] := t[x + size * y] + 1;
      queens := queens + {c};
    }

    /** `t[x + 8*y]--` takes the queen off again. */
    method Take(x: nat, y: nat, ghost q: set<Cell>, ghost before: seq<int>)
      requires Valid() && x < size && y < size
      requires IsBoard(size, before, q) && Cell(x, y) !in q && queens == q + {Cell(x, y)}
      requires Index(size, x, y) < t.Length && t[..] == before[Index(size, x, y) := 1]
      modifies this`queens, t
      ensures Valid() && queens == q && t[..] == before
    {
      BoardAt(size, before, q, x, y);
      RowStartIs(size, y);
      t[x + size * y] := t[x + size * y] - 1;
      queens := q;
    }
  }

  /** Started on the empty board, `go` counts the solutions of the puzzle. */
  method CountSolutions(size: nat) returns (count: int)
    ensures count == |Solutions(size)|
  {
    var b := new Board(size);
    b.Go(0, 0, 0, {});
    count := b.N;
    FromNothing(size);
  }

  lemma FromNothing(size: nat)
    ensures Completions(size, {}, Cell(0, 0), size) == Solutions(size)
  {
    var cells := CellsFrom(size, Cell(0, 0));
    forall s: set<Cell> ensures s in Completions(size, {}, Cell(0, 0), size) <==> s in Solutions(size) {
      assert cells - {} == cells;
    }
  }
}
