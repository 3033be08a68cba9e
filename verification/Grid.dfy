/** The grid slots of tables without a place of their own. */
module Grid {
  import opened Domain

  const GRID_COLUMNS := 4
  const GRID_WIDTH := 320
  const GRID_HEIGHT := 260

  /** Four across, in the order of the file. */
  function GridSlot(index: nat): Position {
    Position((index % GRID_COLUMNS) * GRID_WIDTH, (index / GRID_COLUMNS) * GRID_HEIGHT)
  }

  /** No two tables are put in the same place. */
  lemma GridSlotsApart(i: nat, j: nat)
    requires GridSlot(i) == GridSlot(j)
    ensures i == j
  {
    assert i == (i / GRID_COLUMNS) * GRID_COLUMNS + i % GRID_COLUMNS;
    assert j == (j / GRID_COLUMNS) * GRID_COLUMNS + j % GRID_COLUMNS;
  }
}
