/**
 * Stand-ins for the framework objects the slide transition delegate works on:
 * the tab bar controller (with its view's gesture recognizers and its
 * transition coordinator folded in), the pan gesture recognizer and the child
 * view controllers.  Their methods state the framework behaviour the delegate
 * relies on; what the framework does beyond that is not modelled.
 */
module TabBar {
  import opened SlideDecisions

  /** A child view controller; only its identity matters. */
  class ViewController {
    constructor () {}
  }

  /** A pan gesture recognizer: its state, its translation in the container's view, and `enabled`. */
  class PanGestureRecognizer {
    var state: GestureState
    var translation: Point
    var enabled: bool
    /** How many times `enabled` was switched off: each disable/enable cycle forces a failure. */
    var disableCount: nat
    /** The object the recognizer sends its action to. */
    var target: object?

    constructor (target: object?)
      ensures state == Possible && translation == Zero && enabled
      ensures disableCount == 0 && this.target == target
    {
      state := Possible;
      translation := Zero;
      enabled := true;
      disableCount := 0;
      this.target := target;
    }

    /** Touch tracking, done by the framework, reported as a new state and translation. */
    method Track(s: GestureState, t: Point)
      modifies this`state, this`translation
      ensures state == s && translation == t
    {
      state, translation := s, t;
    }

    method SetEnabled(on: bool)
      modifies this`enabled, this`disableCount
      ensures enabled == on
      ensures disableCount == old(disableCount) + (if on then 0 else 1)
    {
      enabled := on;
      if !on {
        disableCount := disableCount + 1;
      }
    }
  }

  /**
   * A tab bar controller.  `transitionActive` is "a transition coordinator
   * exists"; `completionGesture` is the gesture captured by the completion
   * block the slide delegate attached to the running transition (null: none);
   * `fromIndex` is the selection before the running transition began.
   */
  class TabBarController {
    var viewControllers: seq<ViewController>
    var selectedIndex: nat
    var transitionActive: bool
    var fromIndex: nat
    var completionGesture: PanGestureRecognizer?
    var delegate: object?
    /** The gesture recognizers installed on the controller's view. */
    var gestures: set<PanGestureRecognizer>
    /** The object kept alive by association with this controller. */
    ghost var associated: object?

    constructor (children: seq<ViewController>, selected: nat)
      ensures viewControllers == children && selectedIndex == selected
      ensures !transitionActive && fromIndex == selected && completionGesture == null
      ensures delegate == null && gestures == {} && associated == null
    {
      viewControllers := children;
      selectedIndex := selected;
      transitionActive := false;
      fromIndex := selected;
      completionGesture := null;
      delegate := null;
      gestures := {};
      associated := null;
    }

    /**
     * Selecting another tab starts a transition to it.  This is assumed
     * whoever the delegate is; while the slide delegate is the delegate it
     * holds because that delegate always vends an animator.
     */
    method SetSelectedIndex(i: nat)
      requires !transitionActive
      modifies this`selectedIndex, this`fromIndex, this`transitionActive, this`completionGesture
      ensures selectedIndex == i && fromIndex == old(selectedIndex)
      ensures transitionActive && completionGesture == null
    {
      fromIndex := selectedIndex;
      selectedIndex := i;
      transitionActive := true;
      completionGesture := null;
    }

    /** Attaches the slide delegate's completion block, capturing gesture `g`, to the running transition. */
    method AttachCompletion(g: PanGestureRecognizer)
      requires transitionActive
      modifies this`completionGesture
      ensures completionGesture == g
    {
      completionGesture := g;
    }

    /**
     * The running transition finishes.  Assumed framework behaviour: a
     * cancelled transition restores the previous selection, and the
     * transition has ended when the completion block runs.  Returns the
     * gesture captured by the attached completion block, if any.
     */
    method FinishTransition(cancelled: bool) returns (g: PanGestureRecognizer?)
      requires transitionActive
      modifies this`selectedIndex, this`transitionActive, this`completionGesture
      ensures g == old(completionGesture)
      ensures selectedIndex == if cancelled then fromIndex else old(selectedIndex)
      ensures !transitionActive && completionGesture == null
    {
      g := completionGesture;
      if cancelled {
        selectedIndex := fromIndex;
      }
      transitionActive := false;
      completionGesture := null;
    }

    method SetDelegate(d: object?)
      modifies this`delegate
      ensures delegate == d
    {
      delegate := d;
    }

    method AddGestureRecognizer(g: PanGestureRecognizer)
      modifies this`gestures
      ensures gestures == old(gestures) + {g}
    {
      gestures := gestures + {g};
    }

    method RemoveGestureRecognizer(g: PanGestureRecognizer)
      modifies this`gestures
      ensures gestures == old(gestures) - {g}
    {
      gestures := gestures - {g};
    }

    /** The association that keeps `d` alive while this controller exists. */
    method Associate(d: object?)
      modifies this`associated
      ensures associated == d
    {
      associated := d;
    }
  }
}
