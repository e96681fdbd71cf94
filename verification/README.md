# Bottom-row measurement of the block renderer

This project models the bottom row of a rendered block in a visual block
editor's renderer (`BottomRow` in `core/renderers/measurables/bottom_row.ts`)
and proves properties of it in Dafny.

A row is an ordered sequence of measurable elements: corners, spacers and
next connections. Measuring the bottom row makes one left-to-right pass over
them:

- every element's width is added to the row's width, spacers included;
- a next connection that is not a spacer counts toward the descender, which is
  how far the block reaches below its bottom edge;
- every other non-spacer element counts toward the height above that edge.

The width and the above-edge height are then raised to the row's minimum
width and minimum height. The descender is added on top of the floored height.
The row also answers four shape queries:

- whether its bottom-left corner is square;
- whether its bottom-right corner is square;
- whether it starts with an element spacer;
- whether it ends with an element spacer.

Files:

- `measurables.dfy` (module `Measurables`): the element record. Its two flags
  stand for the renderer's "is spacer" and "is next connection" queries.
  `RoleOf` classifies an element, testing "spacer" first, so an element with
  both flags is padding.
- `row_metrics.dfy` (module `RowMetrics`): the closed-form aggregates. These
  are the total width and the tallest element of a role. The file also proves
  how both behave under concatenation, spacer insertion and permutation.
- `bottom_row.dfy` (module `BottomRows`): the row-type flags, the base-row
  record, the bottom-row record, its construction, the shape queries, the closed form of measurement
  (`Measured`), the single-pass `Measure` method proved equal to it, and
  lemmas about measurement.

The renderer updates the row's fields in place. Here `Measure` takes the row
record and returns the updated record.

## Model

| member | source | states |
|---|---|---|
| `BottomRows.NewBottomRow` | core/renderers/measurables/bottom_row.ts:44-73 | construction adds the bottom-row flag to the row type and keeps every flag already set; no other flag appears; every other base-row field (elements, width, height, floors, width with connected blocks) keeps the value the base constructor gave it; the row starts with no next connection, descender 0 and baseline 0 |
| `BottomRows.HasLeftSquareCorner` | core/renderers/measurables/bottom_row.ts:80-82 | the bottom-left corner is rounded exactly when the block is free-standing: no output connection and no next block |
| `BottomRows.HasRightSquareCorner` | core/renderers/measurables/bottom_row.ts:89-91 | the bottom-right corner is square for every block |
| `BottomRows.StartsWithElemSpacer` | core/renderers/measurables/bottom_row.ts:116-118 | the bottom row never starts with an element spacer |
| `BottomRows.EndsWithElemSpacer` | core/renderers/measurables/bottom_row.ts:120-122 | the bottom row never ends with an element spacer |
| `RowMetrics.TotalWidthBounds` | core/renderers/measurables/bottom_row.ts:97-99 | the total width is at least every element's width, and is 0 exactly when every element has width 0 |
| `RowMetrics.MaxHeightIsMax` | core/renderers/measurables/bottom_row.ts:100-107 | the running maximum of a role's heights bounds every element of that role, and is either 0 or the height of one such element |
| `RowMetrics.TotalWidthAppend` | core/renderers/measurables/bottom_row.ts:97-99 | the width of a concatenation of elements is the sum of the parts' widths |
| `RowMetrics.MaxHeightAppend` | core/renderers/measurables/bottom_row.ts:100-107 | the tallest element of a role in a concatenation is the taller of the two parts' tallest |
| `RowMetrics.SpacerInsertion` | core/renderers/measurables/bottom_row.ts:99-108 | inserting a spacer at any position adds its width and changes no body or descender height, even if it is also flagged as a next connection |
| `RowMetrics.RemoveOne` | core/renderers/measurables/bottom_row.ts:97-107 | an element taken from any position contributes its width to the sum and its height to its role's maximum, independently of where it stood |
| `RowMetrics.PermutationInvariant` | core/renderers/measurables/bottom_row.ts:97-107 | two element sequences that are permutations of each other have the same width sum and the same running maximum for every role |
| `BottomRows.Measured` | core/renderers/measurables/bottom_row.ts:93-114 | after measuring: width is at least the minimum width and at least 0; height is at least the minimum height; 0 <= descender <= height; the width with connected blocks equals the width; elements, floors, type, connection fields and baseline are unchanged |
| `BottomRows.MeasuredCoversElements` | core/renderers/measurables/bottom_row.ts:97-111 | after measuring, no element is wider than the row, every next connection fits in the descender, and every other non-spacer element fits in the height above the descender |
| `BottomRows.Measure` | core/renderers/measurables/bottom_row.ts:93-114 | the single pass with its running sum and two running maxima yields exactly the closed form: width = max(minimum width, total width), descender = tallest next connection, height = max(minimum height, tallest body element) + descender |
| `BottomRows.MeasureIdempotent` | core/renderers/measurables/bottom_row.ts:93-114 | measuring a measured row changes nothing |
| `BottomRows.MeasureIgnoresPriorAggregates` | core/renderers/measurables/bottom_row.ts:94-113 | two rows with the same elements and floors measure to the same width, height, descender and width with connected blocks, whatever those fields held before |
| `BottomRows.SpacerOnlyWidens` | core/renderers/measurables/bottom_row.ts:99-111 | adding a spacer anywhere changes the measured width to max(minimum width, old total + its width) and leaves the measured height and descender unchanged |
| `BottomRows.MeasureIgnoresOrder` | core/renderers/measurables/bottom_row.ts:97-112 | two rows whose elements are permutations of each other, with the same floors, measure to the same width, height, descender and width with connected blocks |
| `BottomRows.LoneNextConnection` | core/renderers/measurables/bottom_row.ts:101-112 | a lone next connection of height h in an unfloored row gives height h, all of it descender |
| `BottomRows.MixedRowScenario` | core/renderers/measurables/bottom_row.ts:93-114 | spacer 5x0, field 20x15, next connection 10x8, no floors: width 35, height 23, descender 8, width with connected blocks 35 |
| `BottomRows.EmptyRowScenario` | core/renderers/measurables/bottom_row.ts:110-112 | an empty row with floors 12 and 4 measures 12 wide, 4 tall, with descender 0 |
| `BottomRows.CornerScenario` | core/renderers/measurables/bottom_row.ts:80-91 | output connection without a next block: square left corner; neither: rounded left corner; the right corner is square in both cases |

## Left out

- Floating point: the renderer's widths and heights are JavaScript numbers. Here element sizes are `nat` and row aggregates are `int`, so sums are exact. The order-independence in `MeasureIgnoresOrder` holds for exact arithmetic, not for rounded float addition.
- Non-negative element sizes are part of the element type (`nat`), not a runtime check. The renderer does not check them either.
- Element classification: the type bitmask and the bodies of `Types.isSpacer` and `Types.isNextConnection` are in a file that is not part of this model. Each element carries the two answers as flags.
- Row-type bit values: the row's `type` bitmask is a set of flags, and `|=` is set union.
- The base row class is not part of this model. Its constructor's effect, including the initial width, height and floors, is an input to `NewBottomRow`. Its other fields are not modelled.
- Rendering constants: the constants provider is not modelled. The minimum width and minimum height are plain fields of the row.
- Blocks: the block object and its SVG machinery are reduced to two facts, "has an output connection" and "has a next block". These are the two things the left-corner query reads.
- `hasNextConnection`, `connection`, `baseline`: measurement neither reads nor writes them. The model carries them and proves they are unchanged. Setting them belongs to code that is not part of this model.
- Module registration and imports carry no behaviour.
