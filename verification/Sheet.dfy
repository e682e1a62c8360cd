/** The test that a grid of labels fits a sheet of paper (src/raster.rs).
    All lengths are micrometres. */
module Sheet {
  import Grids
  import opened Options

  const I64_MAX := 0x7FFF_FFFF_FFFF_FFFF
  const U16_MAX := 0xFFFF
  const A4_WIDTH := 210_000
  const A4_HEIGHT := 297_000

  /** The 64-bit result, if it has one. */
  function Checked(n: int): Option<int> {
    if -I64_MAX - 1 <= n <= I64_MAX then Some(n) else None
  }

  /** The length that `count` labels take with their gaps and both margins. */
  function Used(count: nat, size: int, margin: int, gap: int): Option<int> {
    match Checked(margin * 2)
    case None => None
    case Some(margins) =>
      match Checked(count * size)
      case None => None
      case Some(labels) =>
        match Checked(labels + margins)
        case None => None
        case Some(value) =>
          match Checked((count - 1) * gap)
          case None => None
          case Some(gaps) => Checked(gaps + value)
  }

  datatype Grid = Grid(columns: nat, rows: nat, width: int, height: int, margin: int, gap: int)

  /** What the conversions from the request yield. */
  predicate Representable(g: Grid) {
    && g.columns <= U16_MAX && g.rows <= U16_MAX
    && g.width <= I64_MAX && g.height <= I64_MAX
    && 0 <= g.margin <= I64_MAX && 0 <= g.gap <= I64_MAX
  }

  predicate Accepted(g: Grid) {
    && g.columns > 0 && g.rows > 0 && g.width > 0 && g.height > 0
    && var across := Used(g.columns, g.width, g.margin, g.gap);
       var down := Used(g.rows, g.height, g.margin, g.gap);
       across.Some? && across.value <= A4_WIDTH && down.Some? && down.value <= A4_HEIGHT
  }

  /** The length without any limit on the numbers. */
  function Total(count: nat, size: int, margin: int, gap: int): int {
    2 * margin + count * size + (count - 1) * gap
  }

  lemma UsedIsTotal(count: nat, size: int, margin: int, gap: int, paper: int)
    requires count > 0 && size > 0 && margin >= 0 && gap >= 0 && paper <= I64_MAX
    ensures var used := Used(count, size, margin, gap);
            (used.Some? && used.value <= paper) <==> Total(count, size, margin, gap) <= paper
  {
    assert count * size > 0 && (count - 1) * gap >= 0;
  }

  /** The 64-bit test accepts a grid exactly when the true lengths fit the paper. */
  lemma AcceptedExactlyWhenItFits(g: Grid)
    requires Representable(g)
    ensures Accepted(g) <==>
            && g.columns > 0 && g.rows > 0 && g.width > 0 && g.height > 0
            && Total(g.columns, g.width, g.margin, g.gap) <= 210_000
            && Total(g.rows, g.height, g.margin, g.gap) <= 297_000
  {
    hide Used, Total;
    if g.columns > 0 && g.rows > 0 && g.width > 0 && g.height > 0 {
      UsedIsTotal(g.columns, g.width, g.margin, g.gap, A4_WIDTH);
      UsedIsTotal(g.rows, g.height, g.margin, g.gap, A4_HEIGHT);
    }
  }

  // ---------------------------------------------------------------- the cells

  /** Where cell `k` of a row or column starts. */
  function Start(k: nat, size: int, margin: int, gap: int): int {
    margin + k * (size + gap)
  }

  lemma CellsFit(count: nat, size: int, margin: int, gap: int, k: nat)
    requires size > 0 && margin >= 0 && gap >= 0 && k < count
    ensures margin <= Start(k, size, margin, gap)
    ensures Start(k, size, margin, gap) + size + margin <= Total(count, size, margin, gap)
  {
  }

  lemma CellsAreApart(size: int, margin: int, gap: int, a: nat, b: nat)
    requires size > 0 && gap >= 0 && a < b
    ensures Start(a, size, margin, gap) + size + gap <= Start(b, size, margin, gap)
  {
    Grids.StepsGrow(a, b, size + gap);
  }

  datatype Box = Box(left: int, top: int, right: int, bottom: int)

  function Cell(g: Grid, column: nat, row: nat): Box {
    var left, top := Start(column, g.width, g.margin, g.gap), Start(row, g.height, g.margin, g.gap);
    Box(left, top, left + g.width, top + g.height)
  }

  predicate Disjoint(a: Box, b: Box) {
    a.right <= b.left || b.right <= a.left || a.bottom <= b.top || b.bottom <= a.top
  }

  /** On an accepted sheet every label lies on the paper, inside the margins, and no
      two labels overlap. */
  lemma LabelsLieOnThePaper(g: Grid, column: nat, row: nat)
    requires Representable(g) && Accepted(g) && column < g.columns && row < g.rows
    ensures var cell := Cell(g, column, row);
            && g.margin <= cell.left < cell.right <= 210_000 - g.margin
            && g.margin <= cell.top < cell.bottom <= 297_000 - g.margin
    ensures forall c: nat, r: nat :: (c != column || r != row) ==> Disjoint(Cell(g, column, row), Cell(g, c, r))
  {
    hide Start, Total, Used;
    AcceptedExactlyWhenItFits(g);
    CellsFit(g.columns, g.width, g.margin, g.gap, column);
    CellsFit(g.rows, g.height, g.margin, g.gap, row);
    forall c: nat, r: nat | c != column || r != row
      ensures Disjoint(Cell(g, column, row), Cell(g, c, r))
    {
      if c != column {
        CellsAreApart(g.width, g.margin, g.gap, if c < column then c else column, if c < column then column else c);
      } else {
        CellsAreApart(g.height, g.margin, g.gap, if r < row then r else row, if r < row then row else r);
      }
    }
  }
}
