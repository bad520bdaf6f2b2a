/** The playing field of src/game.rs: a bounded 50 x 50 plane of integer cells. */
module Grid {

  /** Number of columns and of rows; both coordinates range over [0, Size). */
  const Size: int := 50

  /** A cell (x, y). The source stores both coordinates as i16; the model keeps them unbounded. */
  type Cell = (int, int)

  predicate InBounds(c: Cell) {
    0 <= c.0 < Size && 0 <= c.1 < Size
  }

  /** The cells (x, 0), ..., (x, n - 1): the first n cells of column x. */
  function ColumnPrefix(x: int, n: int): set<Cell> {
    set y | 0 <= y < n :: (x, y)
  }

  /** Every cell of the columns 0, ..., n - 1. */
  function Columns(n: int): set<Cell> {
    set x, y | 0 <= x < n && 0 <= y < Size :: (x, y)
  }

  /** The whole board. */
  function AllCells(): set<Cell> {
    Columns(Size)
  }

  lemma AllCellsInBounds(c: Cell)
    ensures c in AllCells() <==> InBounds(c)
  {
    if InBounds(c) {
      assert c == (c.0, c.1);
    }
  }

  lemma {:induction false} ColumnPrefixSize(x: int, n: nat)
    ensures |ColumnPrefix(x, n)| == n
  {
    if n == 0 {
      assert ColumnPrefix(x, 0) == {};
    } else {
      ColumnPrefixSize(x, n - 1);
      assert ColumnPrefix(x, n) == ColumnPrefix(x, n - 1) + {(x, n - 1)};
    }
  }

  lemma {:induction false} ColumnsSize(n: nat)
    ensures |Columns(n)| == n * Size
  {
    if n == 0 {
      assert Columns(0) == {};
    } else {
      ColumnsSize(n - 1);
      ColumnPrefixSize(n - 1, Size);
      assert Columns(n) == Columns(n - 1) + ColumnPrefix(n - 1, Size);
      assert Columns(n - 1) !! ColumnPrefix(n - 1, Size);
    }
  }

  /** The board has 2500 cells. */
  lemma AllCellsSize()
    ensures |AllCells()| == Size * Size
  {
    ColumnsSize(Size);
  }

  /** Taking two distinct cells of the board away leaves 2498. */
  lemma AllButTwoSize(a: Cell, b: Cell)
    requires InBounds(a) && InBounds(b) && a != b
    ensures |AllCells() - {a, b}| == Size * Size - 2
  {
    AllCellsSize();
    AllCellsInBounds(a);
    AllCellsInBounds(b);
    assert AllCells() == (AllCells() - {a, b}) + {a, b};
  }
}
