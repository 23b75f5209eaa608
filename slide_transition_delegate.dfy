/**
 * The delegate of a tab bar controller that switches tabs with a sliding
 * animation driven by a pan gesture.  It owns the pan gesture recognizer,
 * installs it on the bound controller's view, starts a transition from the
 * pan's direction, chooses the animator's edge and vends an interaction
 * controller only while the gesture is in flight.
 */
module SlideTransition {
  import opened Wrappers
  import opened SlideDecisions
  import opened TabBar

  /** The animator vended for a transition; only the edge it slides towards is modelled. */
  datatype SlideTransitionAnimator = SlideTransitionAnimator(targetEdge: Edge)

  /** The interaction controller vended for a transition, bound to the gesture that drives it. */
  datatype InteractionController = InteractionController(gesture: PanGestureRecognizer)

  /**
   * The state left by one selection step taken from selection `base` on
   * controller `c` with gesture `g`, given the values `c.fromIndex`,
   * `c.completionGesture`, `g.disableCount` and `g.enabled` had before it.
   */
  ghost predicate Stepped(c: TabBarController, g: PanGestureRecognizer, base: nat, fromBefore: nat,
                          completionBefore: PanGestureRecognizer?, disablesBefore: nat, enabledBefore: bool)
    reads c, g
  {
    var step := StepFor(g.translation, base, |c.viewControllers|);
    c.selectedIndex == IndexAfter(g.translation, base, |c.viewControllers|)
    && c.transitionActive == step.Moves()
    && c.fromIndex == (if step.Moves() then base else fromBefore)
    && c.completionGesture == (if step.Moves() then g else completionBefore)
    && g.disableCount == disablesBefore + (if step == ForceFail then 1 else 0)
    && g.enabled == (if step == ForceFail then true else enabledBefore)
  }

  class SlideTransitionDelegate {
    /** The tab bar controller this object is the delegate of (a non-owning reference). */
    var tabBarController: TabBarController?
    /** The lazily created pan gesture recognizer. */
    var panGesture: PanGestureRecognizer?

    /**
     * Once bound, the gesture exists.  (Other code may reassign the
     * controller's delegate, and the gesture setter may replace the
     * recognizer installed on the view, so neither is part of it.)
     */
    ghost predicate Valid()
      reads this
    {
      tabBarController != null ==> panGesture != null
    }

    constructor ()
      ensures tabBarController == null && panGesture == null
      ensures Valid()
    {
      tabBarController := null;
      panGesture := null;
    }

    /** The getter of the gesture recognizer: created on first use, the same object afterwards. */
    method GetPanGestureRecognizer() returns (g: PanGestureRecognizer)
      modifies this`panGesture
      ensures Valid()
      ensures old(panGesture) != null ==> g == old(panGesture)
      ensures old(panGesture) == null ==>
                fresh(g) && g.state == Possible && g.translation == Zero && g.enabled &&
                g.disableCount == 0 && g.target == this
      ensures panGesture == g
    {
      if panGesture == null {
        panGesture := new PanGestureRecognizer(this);
      }
      g := panGesture;
    }

    /** The setter of the gesture recognizer. */
    method SetPanGestureRecognizer(g: PanGestureRecognizer)
      requires Valid()
      modifies this`panGesture
      ensures Valid()
      ensures panGesture == g
    {
      panGesture := g;
    }

    /**
     * The setter of `tabBarController`.  Nothing happens when given the bound
     * controller.  Otherwise the gesture leaves the old controller's view, the
     * old controller's delegate is cleared if it was this object, and this
     * object and the gesture are installed on the new one, which must exist.
     */
    method SetTabBarController(newValue: TabBarController?)
      requires Valid() && (newValue != null || tabBarController == null)
      modifies this, tabBarController, newValue
      ensures Valid()
      ensures newValue == old(tabBarController) ==>
                tabBarController == old(tabBarController) && panGesture == old(panGesture) &&
                (newValue != null ==> unchanged(newValue))
      ensures newValue != old(tabBarController) ==>
                tabBarController == newValue && newValue != null && panGesture != null &&
                (old(panGesture) != null ==> panGesture == old(panGesture)) &&
                (old(panGesture) == null ==> fresh(panGesture) && panGesture.state == Possible &&
                                             panGesture.translation == Zero && panGesture.enabled &&
                                             panGesture.disableCount == 0 && panGesture.target == this) &&
                newValue.delegate == this && newValue.associated == this &&
                newValue.gestures == old(newValue.gestures) + {panGesture} &&
                newValue.viewControllers == old(newValue.viewControllers) &&
                newValue.selectedIndex == old(newValue.selectedIndex) &&
                newValue.transitionActive == old(newValue.transitionActive) &&
                newValue.fromIndex == old(newValue.fromIndex) &&
                newValue.completionGesture == old(newValue.completionGesture)
      ensures var c := old(tabBarController);
              c != null && c != newValue ==>
                c.gestures == old(c.gestures) - {panGesture} &&
                c.delegate == (if old(c.delegate) == this then null else old(c.delegate)) &&
                c.associated == null &&
                c.viewControllers == old(c.viewControllers) && c.selectedIndex == old(c.selectedIndex) &&
                c.transitionActive == old(c.transitionActive) && c.fromIndex == old(c.fromIndex) &&
                c.completionGesture == old(c.completionGesture)
    {
      if newValue != tabBarController {
        var c := tabBarController;
        if c != null {
          c.Associate(null);
          var g := GetPanGestureRecognizer();
          c.RemoveGestureRecognizer(g);
          if c.delegate == this {
            c.SetDelegate(null);
          }
        }
        tabBarController := newValue;
        newValue.SetDelegate(this);
        var g := GetPanGestureRecognizer();
        newValue.AddGestureRecognizer(g);
        newValue.Associate(this);
      }
    }

    /**
     * The action of the gesture recognizer.  Nothing happens while a
     * transition is running; otherwise only the began and changed states take
     * a selection step.
     */
    method PanGestureRecognizerDidPan(sender: PanGestureRecognizer)
      requires Valid() && tabBarController != null
      modifies tabBarController`selectedIndex, tabBarController`fromIndex,
               tabBarController`transitionActive, tabBarController`completionGesture,
               sender`enabled, sender`disableCount
      ensures Valid()
      ensures var c := tabBarController;
              if !old(c.transitionActive) && IsTracking(sender.state) then
                Stepped(c, sender, old(c.selectedIndex), old(c.fromIndex), old(c.completionGesture),
                        old(sender.disableCount), old(sender.enabled))
              else
                c.selectedIndex == old(c.selectedIndex) && c.transitionActive == old(c.transitionActive) &&
                c.fromIndex == old(c.fromIndex) && c.completionGesture == old(c.completionGesture) &&
                sender.disableCount == old(sender.disableCount) && sender.enabled == old(sender.enabled)
    {
      if tabBarController.transitionActive {
        return;
      }
      if sender.state == Began || sender.state == Changed {
        BeginInteractiveTransitionIfPossible(sender);
      }
    }

    /**
     * One selection step: a rightward pan selects the previous tab, a leftward
     * pan the next one; with no tab that way, a pan that has moved is forced
     * to fail by disabling and re-enabling its recognizer.  A transition that
     * started gets the completion block that restarts the step on reversal.
     * Both callers call it only while no transition is running.
     */
    method BeginInteractiveTransitionIfPossible(sender: PanGestureRecognizer)
      requires Valid() && tabBarController != null && !tabBarController.transitionActive
      modifies tabBarController`selectedIndex, tabBarController`fromIndex,
               tabBarController`transitionActive, tabBarController`completionGesture,
               sender`enabled, sender`disableCount
      ensures Valid()
      ensures Stepped(tabBarController, sender, old(tabBarController.selectedIndex),
                      old(tabBarController.fromIndex), old(tabBarController.completionGesture),
                      old(sender.disableCount), old(sender.enabled))
      ensures sender.translation.x > 0 && old(tabBarController.selectedIndex) > 0 ==>
                tabBarController.selectedIndex + 1 == old(tabBarController.selectedIndex)
      ensures sender.translation.x < 0 && old(tabBarController.selectedIndex) + 1 < |tabBarController.viewControllers| ==>
                tabBarController.selectedIndex == old(tabBarController.selectedIndex) + 1
      ensures old(tabBarController.selectedIndex) < |tabBarController.viewControllers| ==>
                tabBarController.selectedIndex < |tabBarController.viewControllers|
    {
      var c := tabBarController;
      var translation := sender.translation;
      if translation.x > 0 && c.selectedIndex > 0 {
        c.SetSelectedIndex(c.selectedIndex - 1);
      } else if translation.x < 0 && c.selectedIndex + 1 < |c.viewControllers| {
        c.SetSelectedIndex(c.selectedIndex + 1);
      } else {
        if translation != Zero {
          sender.SetEnabled(false);
          sender.SetEnabled(true);
        }
      }
      if c.transitionActive {
        c.AttachCompletion(sender);
      }
    }

    /**
     * The bound controller's transition finishes.  If the delegate's
     * completion block is attached, the transition was cancelled and its
     * gesture is still changing, the selection step runs again.
     */
    method TransitionDidComplete(cancelled: bool)
      requires Valid() && tabBarController != null && tabBarController.transitionActive
      modifies tabBarController`selectedIndex, tabBarController`fromIndex,
               tabBarController`transitionActive, tabBarController`completionGesture,
               tabBarController.completionGesture
      ensures Valid()
      ensures var g := old(tabBarController.completionGesture);
              g != null ==> g.state == old(g.state) && g.translation == old(g.translation) && g.target == old(g.target)
      ensures var c := tabBarController;
              var g := old(c.completionGesture);
              var base := if cancelled then old(c.fromIndex) else old(c.selectedIndex);
              if g != null && cancelled && g.state == Changed then
                Stepped(c, g, base, old(c.fromIndex), null, old(g.disableCount), old(g.enabled))
              else
                c.selectedIndex == base && !c.transitionActive && c.completionGesture == null &&
                c.fromIndex == old(c.fromIndex) &&
                (g != null ==> g.disableCount == old(g.disableCount) && g.enabled == old(g.enabled))
    {
      var c := tabBarController;
      var g := c.FinishTransition(cancelled);
      if g != null && cancelled && g.state == Changed {
        BeginInteractiveTransitionIfPossible(g);
      }
    }

    /**
     * The animator for a transition of the bound controller from `fromVC` to
     * `toVC`: it slides towards the left edge when `toVC` comes after
     * `fromVC` among the children, towards the right otherwise.
     */
    function AnimationControllerFor(c: TabBarController, fromVC: ViewController, toVC: ViewController)
      : (r: SlideTransitionAnimator)
      reads this, c
      requires c == tabBarController
      ensures Distinct(c.viewControllers) ==>
                forall i, j :: 0 <= i < |c.viewControllers| && 0 <= j < |c.viewControllers| &&
                               c.viewControllers[i] == fromVC && c.viewControllers[j] == toVC ==>
                  (r.targetEdge == Left <==> i < j)
      ensures fromVC == toVC ==> r.targetEdge == Right
      ensures toVC !in c.viewControllers ==> r.targetEdge == Right
      ensures toVC in c.viewControllers && fromVC !in c.viewControllers ==> r.targetEdge == Left
    {
      EdgeByPositions(c.viewControllers, fromVC, toVC);
      SlideTransitionAnimator(SlideEdge(c.viewControllers, fromVC, toVC))
    }

    /**
     * The interaction controller for a transition of the bound controller:
     * one bound to the gesture while it is began or changed, none otherwise
     * (the transition then runs without interaction).
     */
    function InteractionControllerFor(c: TabBarController, animator: SlideTransitionAnimator)
      : (r: Option<InteractionController>)
      reads this, panGesture
      requires Valid() && c == tabBarController
      ensures r.Some? <==> panGesture.state == Began || panGesture.state == Changed
      ensures r == None <==> panGesture.state in {Possible, Ended, Cancelled, Failed}
      ensures r.Some? ==> r.value.gesture == panGesture
    {
      if IsTracking(panGesture.state) then Some(InteractionController(panGesture)) else None
    }
  }
}
