/**
  The bottom row of a rendered block: its construction, its corner and
  edge-spacer queries, and its measurement.

  The renderer's `BottomRow` extends a base `Row` class and updates its own
  fields in place. Here the base class's state is the record `Row` (only the
  fields the bottom row reads or writes), the bottom row is a `BottomRow`
  record holding one, and measuring returns the updated record.
 */
module BottomRows {
  import opened Measurables
  import opened RowMetrics

  /** The flags a row's `type` bitmask can hold; only the bottom-row flag is
      named, the others are kept abstract. */
  datatype TypeFlag = BottomRowFlag | OtherFlag(bit: nat)

  /** A value that may be absent (`null` in the renderer). */
  datatype Option<+T> = None | Some(value: T)

  /** The state the base row class owns. */
  datatype Row = Row(
    elements: seq<Element>,
    width: int,
    height: int,
    minWidth: int,
    minHeight: int,
    rowType: set<TypeFlag>,
    widthWithConnectedBlocks: int)

  /** A bottom row: the base row plus the fields the bottom row adds. `descenderHeight`
      is how far the block extends below its bottom edge; `baseline` is the Y
      position of that edge. */
  datatype BottomRow = BottomRow(
    row: Row,
    hasNextConnection: bool,
    connection: Option<Element>,
    descenderHeight: int,
    baseline: int)

  /** The two facts about the owning block that the corner queries read. */
  datatype BlockFacts = BlockFacts(hasOutputConnection: bool, hasNextBlock: bool)

  /** A block whose bottom-left corner touches nothing: it plugs into no
      value slot and no block follows it. */
  predicate FreeStanding(block: BlockFacts) {
    !block.hasOutputConnection && !block.hasNextBlock
  }

  /** The aggregates `measure` is responsible for, in one tuple. */
  function Aggregates(b: BottomRow): (int, int, int, int) {
    (b.row.width, b.row.height, b.descenderHeight, b.row.widthWithConnectedBlocks)
  }

  /** Construction: the base row as its own constructor left it, with the
      bottom-row flag added to its type and every other flag kept. */
  function NewBottomRow(base: Row): (r: BottomRow)
    ensures BottomRowFlag in r.row.rowType
    ensures forall f :: f in base.rowType ==> f in r.row.rowType
    ensures forall f :: f in r.row.rowType && f !in base.rowType ==> f == BottomRowFlag
    // the type is the only base field construction touches
    ensures r.row == base.(rowType := r.row.rowType)
    ensures !r.hasNextConnection && r.connection == None
    ensures r.descenderHeight == 0 && r.baseline == 0
  {
    BottomRow(base.(rowType := base.rowType + {BottomRowFlag}), false, None, 0, 0)
  }

  /** The bottom-left corner is rounded exactly when the block is free-standing. */
  function HasLeftSquareCorner(block: BlockFacts): (r: bool)
    ensures !r <==> FreeStanding(block)
  {
    block.hasOutputConnection || block.hasNextBlock
  }

  /** The bottom-right corner is square for every block. */
  function HasRightSquareCorner(block: BlockFacts): (r: bool)
    ensures r
  {
    true
  }

  /** The bottom row is never padded with a spacer on its left edge. */
  function StartsWithElemSpacer(b: BottomRow): (r: bool)
    ensures !r
  {
    false
  }

  /** The bottom row is never padded with a spacer on its right edge. */
  function EndsWithElemSpacer(b: BottomRow): (r: bool)
    ensures !r
  {
    false
  }

  /** The row as `measure` leaves it, in closed form: the width is the
      floored total width; the height is the floored height of the body
      elements with the descender added on top; the descender is the tallest
      next connection. */
  function Measured(b: BottomRow): (r: BottomRow)
    // only the aggregates change
    ensures r.row.elements == b.row.elements
    ensures r.row.minWidth == b.row.minWidth && r.row.minHeight == b.row.minHeight
    ensures r.row.rowType == b.row.rowType
    ensures r.hasNextConnection == b.hasNextConnection && r.connection == b.connection
    ensures r.baseline == b.baseline
    // floors and non-negativity
    ensures r.row.width >= r.row.minWidth && r.row.width >= 0
    ensures r.row.height >= r.row.minHeight
    ensures 0 <= r.descenderHeight <= r.row.height
    ensures r.row.widthWithConnectedBlocks == r.row.width
  {
    var elements := b.row.elements;
    var width := Max(b.row.minWidth, TotalWidth(elements));
    var descender := MaxHeight(elements, Descender);
    var height := Max(b.row.minHeight, MaxHeight(elements, Body)) + descender;
    BottomRow(b.row.(width := width, height := height, widthWithConnectedBlocks := width),
              b.hasNextConnection, b.connection, descender, b.baseline)
  }

  /** `measure`: one left-to-right pass with a running width sum, a running
      maximum of body heights and a running maximum of descender heights,
      then the floors. It computes exactly the closed form. */
  method Measure(b: BottomRow) returns (r: BottomRow)
    ensures r == Measured(b)
  {
    var elements := b.row.elements;
    var height: nat := 0;
    var width: nat := 0;
    var descender: nat := 0;
    var i := 0;
    while i < |elements|
      invariant 0 <= i <= |elements|
      invariant width == TotalWidth(elements[..i])
      invariant height == MaxHeight(elements[..i], Body)
      invariant descender == MaxHeight(elements[..i], Descender)
    {
      var elem := elements[i];
      assert elements[..i + 1][..i] == elements[..i];
      width := width + elem.width;
      if !elem.isSpacer {
        if elem.isNextConnection {
          descender := if descender < elem.height then elem.height else descender;
        } else {
          height := if height < elem.height then elem.height else height;
        }
      }
      i := i + 1;
    }
    assert elements[..i] == elements;
    var newWidth := Max(b.row.minWidth, width);
    r := BottomRow(
      b.row.(width := newWidth,
             height := Max(b.row.minHeight, height) + descender,
             widthWithConnectedBlocks := newWidth),
      b.hasNextConnection, b.connection, descender, b.baseline);
  }

  /** Every element fits in the measured row: none is wider than the row,
      every next connection fits in the descender, and every body element
      fits above it. */
  lemma MeasuredCoversElements(b: BottomRow)
    ensures var s, r := b.row.elements, Measured(b);
            && (forall i :: 0 <= i < |s| ==> s[i].width <= r.row.width)
            && (forall i :: 0 <= i < |s| && RoleOf(s[i]) == Descender ==> s[i].height <= r.descenderHeight)
            && (forall i :: 0 <= i < |s| && RoleOf(s[i]) == Body ==>
                  s[i].height + r.descenderHeight <= r.row.height)
  {
    TotalWidthBounds(b.row.elements);
    MaxHeightIsMax(b.row.elements, Descender);
    MaxHeightIsMax(b.row.elements, Body);
  }

  /** Measuring twice in a row changes nothing the first measurement did not. */
  lemma MeasureIdempotent(b: BottomRow)
    ensures Measured(Measured(b)) == Measured(b)
  {
  }

  /** The aggregates depend only on the elements and the two floors, not on
      whatever the aggregate fields held before. */
  lemma MeasureIgnoresPriorAggregates(a: BottomRow, b: BottomRow)
    requires a.row.elements == b.row.elements
    requires a.row.minWidth == b.row.minWidth && a.row.minHeight == b.row.minHeight
    ensures Aggregates(Measured(a)) == Aggregates(Measured(b))
  {
  }

  /** Adding a spacer anywhere in the row widens the unfloored width by the
      spacer's width and leaves the height and the descender as they were,
      even when the spacer is also tagged as a next connection. */
  lemma SpacerOnlyWidens(b: BottomRow, c: BottomRow, k: nat, e: Element)
    requires e.isSpacer
    requires k <= |b.row.elements|
    requires c == b.(row := b.row.(elements := b.row.elements[..k] + [e] + b.row.elements[k..]))
    ensures Measured(c).row.width == Max(b.row.minWidth, TotalWidth(b.row.elements) + e.width)
    ensures Measured(c).row.height == Measured(b).row.height
    ensures Measured(c).descenderHeight == Measured(b).descenderHeight
  {
    var s := b.row.elements;
    var t := c.row.elements;
    SpacerInsertion(s, k, e, Body);
    SpacerInsertion(s, k, e, Descender);
    assert TotalWidth(t) == TotalWidth(s) + e.width;
    assert MaxHeight(t, Body) == MaxHeight(s, Body);
    assert MaxHeight(t, Descender) == MaxHeight(s, Descender);
  }

  /** Measurement does not depend on the order of the elements: any
      permutation of the row measures to the same aggregates. */
  lemma MeasureIgnoresOrder(b: BottomRow, c: BottomRow)
    requires multiset(c.row.elements) == multiset(b.row.elements)
    requires c.row.minWidth == b.row.minWidth && c.row.minHeight == b.row.minHeight
    ensures Aggregates(Measured(c)) == Aggregates(Measured(b))
  {
    PermutationInvariant(c.row.elements, b.row.elements, Body);
    PermutationInvariant(c.row.elements, b.row.elements, Descender);
  }

  /** A lone next connection of height h in an unfloored row: the row is
      exactly h tall, all of it below the baseline. */
  lemma LoneNextConnection(b: BottomRow, w: nat, h: nat)
    requires b.row.elements == [Element(w, h, false, true)]
    requires b.row.minWidth == 0 && b.row.minHeight == 0
    ensures Measured(b).row.height == h && Measured(b).descenderHeight == h
    ensures Measured(b).row.width == w
  {
    var s := b.row.elements;
    assert s[..|s| - 1] == [];
    assert TotalWidth(s) == w;
    assert MaxHeight(s, Descender) == h && MaxHeight(s, Body) == 0;
  }

  /** A spacer 5 wide, a field 20 by 15 and a next connection 10 by 8 give a
      row 35 wide and 15 + 8 tall. */
  lemma MixedRowScenario(b: BottomRow)
    requires b.row.elements == [Element(5, 0, true, false), Element(20, 15, false, false),
                                Element(10, 8, false, true)]
    requires b.row.minWidth == 0 && b.row.minHeight == 0
    ensures Aggregates(Measured(b)) == (35, 23, 8, 35)
  {
    var s := b.row.elements;
    assert s[..2][..1] == s[..1];
    assert s[..1][..0] == [];
    assert TotalWidth(s[..1]) == 5 && MaxHeight(s[..1], Body) == 0 && MaxHeight(s[..1], Descender) == 0;
    assert TotalWidth(s[..2]) == 25 && MaxHeight(s[..2], Body) == 15 && MaxHeight(s[..2], Descender) == 0;
    assert s[..3] == s;
  }

  /** An empty row takes its size from the floors alone. */
  lemma EmptyRowScenario(b: BottomRow)
    requires b.row.elements == []
    requires b.row.minWidth == 12 && b.row.minHeight == 4
    ensures Aggregates(Measured(b)) == (12, 4, 0, 12)
  {
  }

  /** A block with an output connection and no next block has a square
      bottom-left corner; one with neither has a rounded one; the
      bottom-right corner is square in both. */
  lemma CornerScenario()
    ensures HasLeftSquareCorner(BlockFacts(true, false))
    ensures !HasLeftSquareCorner(BlockFacts(false, false))
    ensures HasRightSquareCorner(BlockFacts(true, false)) && HasRightSquareCorner(BlockFacts(false, false))
  {
  }
}
