/**
 * The pure decisions of the slide transition delegate: which way a pan moves
 * the tab selection, which edge a transition slides towards, and when a
 * transition may be interactive.  The objects that carry state live in
 * TabBar and SlideTransition; their methods are specified by these functions.
 */
module SlideDecisions {
  import opened Wrappers

  /** The states of a pan gesture recognizer. */
  datatype GestureState = Possible | Began | Changed | Ended | Cancelled | Failed

  /** A translation in the container's view.  Only signs and zero tests are used,
      so integers stand in for floating-point coordinates. */
  datatype Point = Point(x: int, y: int)

  const Zero: Point := Point(0, 0)

  /** The edge a slide animator moves the incoming view controller towards. */
  datatype Edge = Left | Right

  /** What one selection step does. */
  datatype Step = SelectPrevious | SelectNext | ForceFail | Wait
  {
    /** The steps that change the selection, and so start a transition. */
    predicate Moves() { this == SelectPrevious || this == SelectNext }
  }

  /** The gesture is actively mid-flight. */
  predicate IsTracking(s: GestureState)
    ensures IsTracking(s) <==> s !in {Possible, Ended, Cancelled, Failed}
  {
    s == Began || s == Changed
  }

  /**
   * The choice made by one selection step, from the translation of the pan,
   * the selected index and the number of tabs.  A rightward pan is tested
   * first; a gesture is failed only when it has moved and no tab lies in the
   * direction of the pan.
   */
  function StepFor(t: Point, index: nat, count: nat): (r: Step)
    ensures r == SelectPrevious <==> t.x > 0 && index > 0
    ensures r == SelectNext <==> t.x < 0 && index + 1 < count
    ensures r == ForceFail <==> t != Zero && !(t.x > 0 && index > 0) && !(t.x < 0 && index + 1 < count)
    ensures t == Zero ==> r == Wait
  {
    if t.x > 0 && index > 0 then SelectPrevious
    else if t.x < 0 && index + 1 < count then SelectNext
    else if t != Zero then ForceFail
    else Wait
  }

  /** The selected index once the step for `t` has been taken. */
  function IndexAfter(t: Point, index: nat, count: nat): (j: nat)
    ensures index < count ==> j < count
    ensures j == index || j + 1 == index || j == index + 1
    ensures j + 1 == index <==> t.x > 0 && index > 0
    ensures j == index + 1 <==> t.x < 0 && index + 1 < count
    ensures j != index <==> StepFor(t, index, count).Moves()
  {
    match StepFor(t, index, count)
    case SelectPrevious => index - 1
    case SelectNext => index + 1
    case _ => index
  }

  /** The gesture is failed exactly when it has a translation and no tab lies in its direction. */
  lemma ForceFailIffDisplacedWithoutTab(t: Point, index: nat, count: nat)
    ensures StepFor(t, index, count) == ForceFail <==>
              t != Zero && IndexAfter(t, index, count) == index
  {
  }

  /** At the first tab a rightward pan, and at the last tab a leftward one, cannot move the selection
      and fails the gesture. */
  lemma BoundaryPanFails(t: Point, index: nat, count: nat)
    requires (index == 0 && t.x > 0) || (index + 1 == count && t.x < 0)
    ensures IndexAfter(t, index, count) == index
    ensures StepFor(t, index, count) == ForceFail
  {
  }

  /** A zero translation neither moves the selection nor fails the gesture, at any index. */
  lemma ZeroTranslationWaits(index: nat, count: nat)
    ensures StepFor(Zero, index, count) == Wait
    ensures IndexAfter(Zero, index, count) == index
  {
  }

  /**
   * A pan first goes left from `index` to the next tab; that transition is
   * cancelled, which restores `index`, and the finger is now right of its
   * start.  The restart from the restored `index` reaches the tab on the
   * other side (or fails the gesture at the first tab), whereas a step from
   * the cancelled transition's target would only have come back to `index`.
   */
  lemma ReversalGoesTheOtherWay(t1: Point, t2: Point, index: nat, count: nat)
    requires StepFor(t1, index, count) == SelectNext
    requires t2.x > 0
    ensures IndexAfter(t1, index, count) == index + 1
    ensures IndexAfter(t2, IndexAfter(t1, index, count), count) == index
    ensures index > 0 ==> IndexAfter(t2, index, count) == index - 1
    ensures index == 0 ==> StepFor(t2, index, count) == ForceFail
  {
  }

  /** The index of the first occurrence of `x` in `s` (Swift's `indexOf`). */
  function FirstIndexOf<T(==)>(s: seq<T>, x: T): (r: Option<nat>)
    ensures r.None? <==> x !in s
    ensures r.Some? ==> r.value < |s| && s[r.value] == x
    ensures r.Some? ==> forall k :: 0 <= k < r.value ==> s[k] != x
  {
    if |s| == 0 then None
    else if s[0] == x then Some(0)
    else
      match FirstIndexOf(s[1..], x)
      case None => None
      case Some(k) => Some(k + 1)
  }

  /** Swift 2's ordering of optional integers: `nil` precedes every value. */
  predicate OptionalLess(a: Option<nat>, b: Option<nat>)
    ensures a.None? && b.Some? ==> OptionalLess(a, b)
    ensures b.None? ==> !OptionalLess(a, b)
    ensures a.Some? && b.Some? ==> (OptionalLess(a, b) <==> a.value < b.value)
  {
    match (a, b)
    case (_, None) => false
    case (None, Some(_)) => true
    case (Some(m), Some(n)) => m < n
  }

  /** The ordering is a strict total order on optional integers, with `nil` least. */
  lemma OptionalLessIsStrictTotalOrder(a: Option<nat>, b: Option<nat>, c: Option<nat>)
    ensures !OptionalLess(a, a)
    ensures OptionalLess(a, b) && OptionalLess(b, c) ==> OptionalLess(a, c)
    ensures a == b || OptionalLess(a, b) || OptionalLess(b, a)
    ensures a != None ==> OptionalLess(None, a)
  {
  }

  /** No child view controller appears twice. */
  predicate Distinct<T(==)>(s: seq<T>) {
    forall a, b :: 0 <= a < b < |s| ==> s[a] != s[b]
  }

  /**
   * The slide edge for a transition among `vcs`: Left when the incoming view
   * controller's index is greater than the outgoing one's, Right otherwise.
   */
  function SlideEdge<T(==)>(vcs: seq<T>, from: T, to: T): (r: Edge)
    ensures from == to ==> r == Right
    ensures to !in vcs ==> r == Right
    ensures to in vcs && from !in vcs ==> r == Left
  {
    if OptionalLess(FirstIndexOf(vcs, from), FirstIndexOf(vcs, to)) then Left else Right
  }

  /** In a sequence of distinct children the edge follows the children's order. */
  lemma EdgeFollowsTabOrder<T>(vcs: seq<T>, i: nat, j: nat)
    requires Distinct(vcs) && i < |vcs| && j < |vcs|
    ensures SlideEdge(vcs, vcs[i], vcs[j]) == if i < j then Left else Right
  {
    IndexOfDistinct(vcs, i);
    IndexOfDistinct(vcs, j);
  }

  /** In a sequence of distinct elements, the element at `i` is first found at `i`. */
  lemma IndexOfDistinct<T>(s: seq<T>, i: nat)
    requires Distinct(s) && i < |s|
    ensures FirstIndexOf(s, s[i]) == Some(i)
  {
  }

  /** The edge of every pair of positions in a sequence of distinct children. */
  lemma EdgeByPositions<T>(vcs: seq<T>, from: T, to: T)
    ensures Distinct(vcs) ==>
              forall i, j :: 0 <= i < |vcs| && 0 <= j < |vcs| && vcs[i] == from && vcs[j] == to ==>
                (SlideEdge(vcs, from, to) == Left <==> i < j)
  {
    if Distinct(vcs) {
      forall i, j | 0 <= i < |vcs| && 0 <= j < |vcs| && vcs[i] == from && vcs[j] == to
        ensures SlideEdge(vcs, from, to) == Left <==> i < j
      {
        EdgeFollowsTabOrder(vcs, i, j);
      }
    }
  }
}
