/**
  Closed-form specifications of the three aggregates the bottom row computes
  from its elements: the total width of all elements, and the tallest
  element of a given role (0 when there is none).

  Both are defined by peeling off the LAST element, so that they follow a
  left-to-right pass over the row one element at a time.
 */
module RowMetrics {
  import opened Measurables

  function Max(a: int, b: int): int {
    if a < b then b else a
  }

  /** The sum of the widths of all elements, whatever their role. */
  function TotalWidth(s: seq<Element>): nat {
    if |s| == 0 then 0 else TotalWidth(s[..|s| - 1]) + s[|s| - 1].width
  }

  /** The height of the tallest element of role `role`, or 0 when the row has none. */
  function MaxHeight(s: seq<Element>, role: Role): nat {
    if |s| == 0 then 0
    else
      var rest := MaxHeight(s[..|s| - 1], role);
      var last := s[|s| - 1];
      if RoleOf(last) == role && rest < last.height then last.height else rest
  }

  /** The total width bounds every element's width, and is 0 exactly when
      every element has width 0. */
  lemma {:induction false} TotalWidthBounds(s: seq<Element>)
    ensures forall i :: 0 <= i < |s| ==> s[i].width <= TotalWidth(s)
    ensures TotalWidth(s) == 0 <==> forall i :: 0 <= i < |s| ==> s[i].width == 0
  {
    if |s| > 0 {
      var init := s[..|s| - 1];
      TotalWidthBounds(init);
      assert forall i :: 0 <= i < |init| ==> init[i] == s[i];
    }
  }

  /** `MaxHeight` is the maximum: it bounds the height of every element of the
      role, and is either 0 or the height of one such element. */
  lemma {:induction false} MaxHeightIsMax(s: seq<Element>, role: Role)
    ensures forall i :: 0 <= i < |s| && RoleOf(s[i]) == role ==> s[i].height <= MaxHeight(s, role)
    ensures MaxHeight(s, role) == 0 ||
            exists i :: 0 <= i < |s| && RoleOf(s[i]) == role && s[i].height == MaxHeight(s, role)
  {
    if |s| > 0 {
      var init := s[..|s| - 1];
      MaxHeightIsMax(init, role);
      assert forall i :: 0 <= i < |init| ==> init[i] == s[i];
    }
  }

  /** Width is additive over concatenation: the measurement may split a row anywhere. */
  lemma {:induction false} TotalWidthAppend(a: seq<Element>, b: seq<Element>)
    ensures TotalWidth(a + b) == TotalWidth(a) + TotalWidth(b)
    decreases |b|
  {
    if |b| > 0 {
      var b' := b[..|b| - 1];
      assert (a + b)[..|a + b| - 1] == a + b';
      TotalWidthAppend(a, b');
    } else {
      assert a + b == a;
    }
  }

  /** The tallest element of a role in a concatenation is the taller of the two parts' tallest. */
  lemma {:induction false} MaxHeightAppend(a: seq<Element>, b: seq<Element>, role: Role)
    ensures MaxHeight(a + b, role) == Max(MaxHeight(a, role), MaxHeight(b, role))
    decreases |b|
  {
    if |b| > 0 {
      var b' := b[..|b| - 1];
      assert (a + b)[..|a + b| - 1] == a + b';
      MaxHeightAppend(a, b', role);
    } else {
      assert a + b == a;
    }
  }

  /** Inserting a spacer anywhere adds its width to the total and changes no
      height of a role other than padding, even when the spacer is also
      flagged as a next connection. */
  lemma SpacerInsertion(s: seq<Element>, k: nat, e: Element, role: Role)
    requires e.isSpacer
    requires k <= |s|
    requires role != Padding
    ensures TotalWidth(s[..k] + [e] + s[k..]) == TotalWidth(s) + e.width
    ensures MaxHeight(s[..k] + [e] + s[k..], role) == MaxHeight(s, role)
  {
    var t := s[..k] + [e] + s[k..];
    assert s == s[..k] + s[k..];
    TotalWidthAppend(s[..k] + [e], s[k..]);
    TotalWidthAppend(s[..k], [e]);
    TotalWidthAppend(s[..k], s[k..]);
    assert TotalWidth([e]) == TotalWidth([e][..0]) + e.width;
    MaxHeightAppend(s[..k] + [e], s[k..], role);
    MaxHeightAppend(s[..k], [e], role);
    MaxHeightAppend(s[..k], s[k..], role);
    assert MaxHeight([e], role) == MaxHeight([e][..0], role);
  }

  /** Taking one element out of the middle of a row: the row is the rest
      plus that element, for the width sum and for every role's maximum. */
  lemma RemoveOne(b: seq<Element>, j: nat, role: Role)
    requires j < |b|
    ensures TotalWidth(b) == TotalWidth(b[..j] + b[j + 1..]) + b[j].width
    ensures MaxHeight(b, role) == Max(MaxHeight(b[..j] + b[j + 1..], role), MaxHeight([b[j]], role))
  {
    var x := b[j];
    assert b == b[..j] + [x] + b[j + 1..];
    TotalWidthAppend(b[..j] + [x], b[j + 1..]);
    TotalWidthAppend(b[..j], [x]);
    TotalWidthAppend(b[..j], b[j + 1..]);
    assert TotalWidth([x]) == TotalWidth([x][..0]) + x.width;
    MaxHeightAppend(b[..j] + [x], b[j + 1..], role);
    MaxHeightAppend(b[..j], [x], role);
    MaxHeightAppend(b[..j], b[j + 1..], role);
  }

  /** Taking one element out of the middle of a row removes one copy of it
      from the row's multiset of elements. */
  lemma MultisetRemoveOne(b: seq<Element>, j: nat)
    requires j < |b|
    ensures multiset(b) == multiset(b[..j] + b[j + 1..]) + multiset{b[j]}
  {
    assert b == b[..j] + [b[j]] + b[j + 1..];
    assert multiset(b) == multiset(b[..j]) + multiset([b[j]]) + multiset(b[j + 1..]);
    assert multiset(b[..j] + b[j + 1..]) == multiset(b[..j]) + multiset(b[j + 1..]);
  }

  /** Neither aggregate depends on the order of the elements: two rows that
      are permutations of each other have the same total width and the same
      tallest element of every role. */
  lemma {:induction false} PermutationInvariant(a: seq<Element>, b: seq<Element>, role: Role)
    requires multiset(a) == multiset(b)
    ensures TotalWidth(a) == TotalWidth(b)
    ensures MaxHeight(a, role) == MaxHeight(b, role)
    decreases |a|
  {
    if |a| == 0 {
      assert |b| == |multiset(b)| == 0;
    } else {
      var a' := a[..|a| - 1];
      var x := a[|a| - 1];
      MultisetRemoveOne(a, |a| - 1);
      assert a[..|a| - 1] + a[|a|..] == a';
      assert x in multiset(b);
      var j :| 0 <= j < |b| && b[j] == x;
      var b' := b[..j] + b[j + 1..];
      MultisetRemoveOne(b, j);
      assert multiset(a') == multiset(a) - multiset{x} == multiset(b) - multiset{x} == multiset(b');
      PermutationInvariant(a', b', role);
      RemoveOne(b, j, role);
      assert MaxHeight(a, role) == Max(MaxHeight(a', role), MaxHeight([x], role)) by {
        MaxHeightAppend(a', [x], role);
      }
    }
  }
}
