/**
 * Clients of the delegate that follow whole gestures through the model, using
 * only the contracts of the delegate and of the framework stand-ins.
 */
module SlideScenarios {
  import opened Wrappers
  import opened SlideDecisions
  import opened TabBar
  import opened SlideTransition

  /**
   * Three tabs, the middle one selected.  A leftward pan selects the last tab
   * with a left-edge interactive transition; further pan events while it runs
   * change nothing; the transition is cancelled while the finger, now right of
   * its start, is still down, and the restart selects the first tab with a
   * right-edge transition.
   */
  method ReversalScenario() returns (first: nat, firstEdge: Edge, interactive: bool, whileRunning: nat,
                                     afterRestart: nat, restartEdge: Edge)
    ensures first == 2 && firstEdge == Left && interactive
    ensures whileRunning == 2
    ensures afterRestart == 0 && restartEdge == Right
  {
    var tabs, d, g := BoundToThreeTabs();
    var vcs := tabs.viewControllers;

    g.Track(Began, Point(-40, 0));
    d.PanGestureRecognizerDidPan(g);
    assert StepFor(Point(-40, 0), 1, 3) == SelectNext;
    first := tabs.selectedIndex;
    EdgeFollowsTabOrder(vcs, 1, first);
    firstEdge := d.AnimationControllerFor(tabs, vcs[1], vcs[first]).targetEdge;
    interactive := d.InteractionControllerFor(tabs, SlideTransitionAnimator(firstEdge)).Some?;

    g.Track(Changed, Point(-60, 0));
    d.PanGestureRecognizerDidPan(g);
    whileRunning := tabs.selectedIndex;

    g.Track(Changed, Point(10, 0));
    d.TransitionDidComplete(true);
    assert StepFor(Point(10, 0), 1, 3) == SelectPrevious;
    afterRestart := tabs.selectedIndex;
    EdgeFollowsTabOrder(vcs, 1, afterRestart);
    restartEdge := d.AnimationControllerFor(tabs, vcs[1], vcs[afterRestart]).targetEdge;
  }

  /** A delegate bound to a fresh controller of three distinct tabs, the middle one selected. */
  method BoundToThreeTabs() returns (tabs: TabBarController, d: SlideTransitionDelegate, g: PanGestureRecognizer)
    ensures fresh(tabs) && fresh(d) && fresh(g)
    ensures d.Valid() && d.tabBarController == tabs && d.panGesture == g
    ensures |tabs.viewControllers| == 3 && Distinct(tabs.viewControllers)
    ensures tabs.selectedIndex == 1 && !tabs.transitionActive && tabs.completionGesture == null
    ensures g.state == Possible && g.translation == Zero && g.enabled && g.disableCount == 0
  {
    var a := new ViewController();
    var b := new ViewController();
    var c := new ViewController();
    tabs := new TabBarController([a, b, c], 1);
    d := new SlideTransitionDelegate();
    d.SetTabBarController(tabs);
    g := d.GetPanGestureRecognizer();
  }

  /**
   * Two tabs, the last one selected.  A leftward pan has no tab to go to: the
   * selection stays, no transition starts and the gesture is forced to fail
   * once.  A pan that has not moved yet does nothing at all.
   */
  method LastTabScenario() returns (index: nat, running: bool, failures: nat, stillFailures: nat)
    ensures index == 1 && !running && failures == 1
    ensures stillFailures == 1
  {
    var a := new ViewController();
    var b := new ViewController();
    var tabs := new TabBarController([a, b], 1);
    var d := new SlideTransitionDelegate();
    d.SetTabBarController(tabs);
    var g := d.GetPanGestureRecognizer();

    g.Track(Began, Point(-20, 0));
    d.PanGestureRecognizerDidPan(g);
    index, running, failures := tabs.selectedIndex, tabs.transitionActive, g.disableCount;

    g.Track(Changed, Zero);
    d.PanGestureRecognizerDidPan(g);
    stillFailures := g.disableCount;
  }

  /** The gesture getter returns the same recognizer on every call, and binding reuses it. */
  method MemoisedGestureScenario() returns (sameOnRepeat: bool, installed: bool)
    ensures sameOnRepeat && installed
  {
    var d := new SlideTransitionDelegate();
    var g1 := d.GetPanGestureRecognizer();
    var g2 := d.GetPanGestureRecognizer();
    sameOnRepeat := g1 == g2;
    var tabs := new TabBarController([], 0);
    d.SetTabBarController(tabs);
    installed := tabs.gestures == {g1} && tabs.delegate == d;
  }

  /**
   * Rebinding: binding the same controller again changes nothing; binding
   * another one moves the gesture there, clears the old controller's delegate
   * only when it was the delegate, and leaves another delegate in place.
   */
  method RebindScenario() returns (oldGestures: set<PanGestureRecognizer>, oldDelegateCleared: bool,
                                   otherKept: bool, newBound: bool)
    ensures oldGestures == {} && oldDelegateCleared && otherKept && newBound
  {
    var first := new TabBarController([], 0);
    var second := new TabBarController([], 0);
    var third := new TabBarController([], 0);
    var d := new SlideTransitionDelegate();
    d.SetTabBarController(first);
    d.SetTabBarController(first);
    d.SetTabBarController(second);
    oldGestures := first.gestures;
    oldDelegateCleared := first.delegate == null;
    var g := d.GetPanGestureRecognizer();
    newBound := second.gestures == {g} && second.delegate == d && d.tabBarController == second;

    var other := new SlideTransitionDelegate();
    second.SetDelegate(other);
    d.SetTabBarController(third);
    otherKept := second.delegate == other;
  }
}
