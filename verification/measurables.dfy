/**
  The measurable elements that make up a row of a rendered block, and the
  classification the bottom row's measurement applies to them.

  The renderer tags every element with a bitmask and asks predicate queries
  of it (is it a spacer? is it a next connection?). The bit values live in a
  file that is not part of this model, so an element here carries the two
  answers the bottom row needs as flags. An element may carry both.
 */
module Measurables {

  /** One visual unit of a row: an icon, a field, a corner, a spacer, a next connection... */
  datatype Element = Element(width: nat, height: nat, isSpacer: bool, isNextConnection: bool)

  /** How the bottom row's measurement treats an element. */
  datatype Role =
    | Padding     // a spacer: contributes width only
    | Descender   // a next connection that is not a spacer: extends below the baseline
    | Body        // everything else: sits above the baseline

  /** The spacer test comes first, so an element flagged as both a spacer and
      a next connection is padding. */
  function RoleOf(e: Element): Role {
    if e.isSpacer then Padding
    else if e.isNextConnection then Descender
    else Body
  }
}
