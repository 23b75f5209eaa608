# Slide transition delegate, modelled in Dafny

This project models the delegate of a tab bar controller that lets the user
swipe between tabs with an interactive sliding animation
(`AAPLSlideTransitionDelegate`). The delegate:

- owns a lazily created pan gesture recognizer and installs it on the bound
  tab bar controller's view;
- turns a pan into a selection step: previous tab, next tab, forced gesture
  failure, or nothing;
- refuses to start a transition while one is running;
- picks the animator's slide edge from the order of the two view controllers;
- vends an interaction controller only while the gesture is in flight;
- restarts the step when a transition is cancelled while the finger is still
  down, so that a pan which reverses direction switches tabs the other way.

Layout:

- `wrappers.dfy`: `Option`, which stands for Swift's optionals.
- `slide_decisions.dfy` (module `SlideDecisions`): the pure decisions.
  - `StepFor` and `IndexAfter` give the selection step.
  - `FirstIndexOf` is Swift's `indexOf`.
  - `OptionalLess` is Swift 2's ordering of `Int?`, where `nil` comes before every value.
  - `SlideEdge` gives the animator edge.
  - The lemmas state the pan and edge properties.
- `tab_bar.dfy` (module `TabBar`): stand-ins for the framework objects.
  - `TabBarController` holds the children, `selectedIndex`, whether a transition coordinator exists, the selection before the running transition began (`fromIndex`, which a cancelled transition restores), the completion block attached to the running transition, the delegate slot, the view's gesture recognizers and the association.
  - `PanGestureRecognizer` holds state, translation, `enabled` and a counter of disable cycles.
  - `ViewController` has identity only.
- `slide_transition_delegate.dfy` (module `SlideTransition`): class `SlideTransitionDelegate`.
  - Its methods change state. The selection-step methods (`PanGestureRecognizerDidPan`, `BeginInteractiveTransitionIfPossible`, `TransitionDidComplete`) are proved against `StepFor` and `IndexAfter` of `SlideDecisions`; the two setters and the gesture getter state the new state directly.
  - The two delegate callbacks that only compute a value are functions.
- `scenarios.dfy` (module `SlideScenarios`): clients that follow whole gestures using only the contracts.

Framework behaviour the model assumes (it is not in the modelled file):

1. Setting `selectedIndex` to a new value starts a transition. While this delegate is the controller's delegate this holds because it always vends an animator; the model assumes it whoever the delegate is.
2. A cancelled transition restores the previous selection.
3. The transition has ended by the time the completion block runs.
4. The translation is read relative to the controller's view and kept as an integer pair, because the code only tests signs and equality with zero.

Facts about the code that shape the model:

- Passing nil while a controller is bound crashes at line 56, where the implicitly unwrapped property is used. So `SetTabBarController` requires a non-null value unless nothing is bound.
- Rebinding reuses the recognizer: it is removed from the old view and added to the new one, never recreated.
- Line 52 checks the old controller's delegate before clearing it, so other code may reassign that delegate. `Valid()` therefore does not include "the controller's delegate is this object"; the setter's contract states that it installs itself as delegate.
- The recognizer setter (line 82) may replace the recognizer while a controller is bound. The old one then stays on the view and line 194 reads the new one. So `Valid()` only says that a bound delegate has a recognizer, and `SetTabBarController`'s contract says which recognizers are on the view.

## Model

| member | source | states |
|---|---|---|
| `SlideDecisions.StepFor` | CustomTransitions/Slide/AAPLSlideTransitionDelegate.swift:112-128 | selects the previous tab iff the pan is rightward and a previous tab exists; selects the next one iff the pan is leftward and a next tab exists; forces failure iff the translation is not (0,0) and neither move applies; a zero translation only waits |
| `SlideDecisions.IndexAfter` | CustomTransitions/Slide/AAPLSlideTransitionDelegate.swift:112-117 | the index moves by at most one; it decreases by one iff rightward pan with index > 0; it increases by one iff leftward pan with index + 1 < count; an index below count stays below count |
| `SlideDecisions.ForceFailIffDisplacedWithoutTab` | CustomTransitions/Slide/AAPLSlideTransitionDelegate.swift:118-128 | the gesture is forced to fail exactly when it has a non-zero translation and the selection does not move |
| `SlideDecisions.BoundaryPanFails` | CustomTransitions/Slide/AAPLSlideTransitionDelegate.swift:112-128 | a rightward pan at the first tab, or a leftward pan at the last, keeps the index and forces failure |
| `SlideDecisions.ZeroTranslationWaits` | CustomTransitions/Slide/AAPLSlideTransitionDelegate.swift:119-122 | a (0,0) translation neither moves the selection nor forces failure, at any index |
| `SlideDecisions.ReversalGoesTheOtherWay` | CustomTransitions/Slide/AAPLSlideTransitionDelegate.swift:130-151 | a leftward step from i reaches i+1; once it is cancelled and i restored, a rightward translation selects i−1, or forces failure at the first tab, while the same step from i+1 would only have returned to i |
| `SlideDecisions.IsTracking` | CustomTransitions/Slide/AAPLSlideTransitionDelegate.swift:96 | the gesture counts as in flight iff its state is began or changed, so never for possible, ended, cancelled or failed (also the test at line 194) |
| `SlideDecisions.OptionalLess` | CustomTransitions/Slide/AAPLSlideTransitionDelegate.swift:169 | Swift 2's `<` on `Int?`: nil is below every present value, nothing is below nil, and two present values compare as integers |
| `SlideDecisions.OptionalLessIsStrictTotalOrder` | CustomTransitions/Slide/AAPLSlideTransitionDelegate.swift:169 | that ordering is irreflexive, transitive and total, with nil least |
| `SlideDecisions.FirstIndexOf` | CustomTransitions/Slide/AAPLSlideTransitionDelegate.swift:169 | none iff the element is absent; otherwise an in-range position holding the element with no earlier occurrence |
| `SlideDecisions.SlideEdge` | CustomTransitions/Slide/AAPLSlideTransitionDelegate.swift:169-177 | equal view controllers give Right; an absent incoming one gives Right; a present incoming one with an absent outgoing one gives Left (Swift 2 optional ordering) |
| `SlideDecisions.IndexOfDistinct` | CustomTransitions/Slide/AAPLSlideTransitionDelegate.swift:169 | among distinct children, the child at position i is found at i |
| `SlideDecisions.EdgeFollowsTabOrder` | CustomTransitions/Slide/AAPLSlideTransitionDelegate.swift:169-177 | among distinct children the edge is Left iff the incoming position is greater than the outgoing one, Right otherwise (equal positions give Right) |
| `SlideDecisions.EdgeByPositions` | CustomTransitions/Slide/AAPLSlideTransitionDelegate.swift:169-177 | the same for every pair of positions holding the two view controllers |
| `TabBar.PanGestureRecognizer.constructor` | CustomTransitions/Slide/AAPLSlideTransitionDelegate.swift:77 | a new recognizer is possible, enabled, has zero translation, no forced failures, and targets the given object |
| `TabBar.PanGestureRecognizer.SetEnabled` | CustomTransitions/Slide/AAPLSlideTransitionDelegate.swift:125-126 | sets `enabled`; each disable is counted as one forced failure |
| `TabBar.TabBarController.SetSelectedIndex` | CustomTransitions/Slide/AAPLSlideTransitionDelegate.swift:114-117 | framework stand-in: selecting a tab starts a transition from the previous selection |
| `TabBar.TabBarController.AttachCompletion` | CustomTransitions/Slide/AAPLSlideTransitionDelegate.swift:147 | framework stand-in: the completion block, capturing the gesture, is attached to the running transition |
| `TabBar.TabBarController.FinishTransition` | CustomTransitions/Slide/AAPLSlideTransitionDelegate.swift:147-148 | framework stand-in (assumed): the transition ends; on cancellation the previous selection returns; the attached block's gesture is handed back |
| `TabBar.TabBarController.SetDelegate` | CustomTransitions/Slide/AAPLSlideTransitionDelegate.swift:52-56 | framework stand-in: the delegate slot takes the given value |
| `TabBar.TabBarController.AddGestureRecognizer` | CustomTransitions/Slide/AAPLSlideTransitionDelegate.swift:57 | framework stand-in: the view's recognizers gain the gesture |
| `TabBar.TabBarController.RemoveGestureRecognizer` | CustomTransitions/Slide/AAPLSlideTransitionDelegate.swift:51 | framework stand-in: the view's recognizers lose the gesture |
| `TabBar.TabBarController.Associate` | CustomTransitions/Slide/AAPLSlideTransitionDelegate.swift:50-61 | framework stand-in: the object kept alive by the controller becomes the given one |
| `SlideTransition.SlideTransitionDelegate.constructor` | CustomTransitions/Slide/AAPLSlideTransitionDelegate.swift:25-73 | a new delegate is bound to no controller, has no recognizer yet, and Valid() holds |
| `SlideTransition.SlideTransitionDelegate.GetPanGestureRecognizer` | CustomTransitions/Slide/AAPLSlideTransitionDelegate.swift:73-81 | the first call creates a fresh possible, enabled recognizer targeting this delegate; later calls return the stored one; the invariant holds afterwards |
| `SlideTransition.SlideTransitionDelegate.SetPanGestureRecognizer` | CustomTransitions/Slide/AAPLSlideTransitionDelegate.swift:82 | stores the given non-optional recognizer and keeps the invariant, also while bound (the view keeps its recognizers) |
| `SlideTransition.SlideTransitionDelegate.SetTabBarController` | CustomTransitions/Slide/AAPLSlideTransitionDelegate.swift:46-62 | same controller: nothing changes. Different one: the gesture leaves the old view; the old delegate becomes none only if it was this object, otherwise it stays; the old association is cleared; the new controller gets this delegate, the gesture (created if needed) and the association; selections elsewhere are untouched; the invariant holds |
| `SlideTransition.SlideTransitionDelegate.PanGestureRecognizerDidPan` | CustomTransitions/Slide/AAPLSlideTransitionDelegate.swift:89-102 | while a transition runs nothing changes; otherwise exactly one selection step is taken for began/changed, and nothing changes for the other states |
| `SlideTransition.SlideTransitionDelegate.BeginInteractiveTransitionIfPossible` | CustomTransitions/Slide/AAPLSlideTransitionDelegate.swift:109-152 | the new selection is `IndexAfter` of the old one: −1 for a rightward pan with a previous tab, +1 for a leftward pan with a next tab, in bounds if it was; a transition starts iff the index moved, and only then is the restart block attached; the gesture's disable count grows by one exactly in the forced-failure case, and in that case it ends enabled; otherwise `enabled` keeps its value |
| `SlideTransition.SlideTransitionDelegate.TransitionDidComplete` | CustomTransitions/Slide/AAPLSlideTransitionDelegate.swift:147-151 | the step is re-run, from the restored selection, iff the block is attached, the transition was cancelled and the gesture is still changed; otherwise the transition simply ends |
| `SlideTransition.SlideTransitionDelegate.AnimationControllerFor` | CustomTransitions/Slide/AAPLSlideTransitionDelegate.swift:164-178 | requires the bound controller; among distinct children the animator's edge is Left iff the incoming position is after the outgoing one; the same view controller, or an absent incoming one, gives Right |
| `SlideTransition.SlideTransitionDelegate.InteractionControllerFor` | CustomTransitions/Slide/AAPLSlideTransitionDelegate.swift:190-201 | requires the bound controller; a controller bound to this delegate's gesture iff its state is began or changed; none for possible, ended, cancelled and failed |
| `SlideScenarios.ReversalScenario` | CustomTransitions/Slide/AAPLSlideTransitionDelegate.swift:89-177 | 3 tabs, middle selected: a leftward pan selects tab 2 with a left edge, interactively; pans while it runs change nothing; cancellation with the finger now to the right restarts to tab 0 with a right edge |
| `SlideScenarios.LastTabScenario` | CustomTransitions/Slide/AAPLSlideTransitionDelegate.swift:109-128 | 2 tabs, last selected: a leftward pan keeps the selection, starts nothing and forces one failure; a zero translation adds none |
| `SlideScenarios.MemoisedGestureScenario` | CustomTransitions/Slide/AAPLSlideTransitionDelegate.swift:56-81 | two getter calls return the same recognizer, and binding installs exactly that one and this delegate |
| `SlideScenarios.RebindScenario` | CustomTransitions/Slide/AAPLSlideTransitionDelegate.swift:46-62 | rebinding moves the gesture off the old controller and clears the old delegate that was this object; a delegate set by someone else is left in place |

## Left out

- TabBar.TabBarController.SetSelectedIndex: a transition is assumed to start whoever the controller's delegate is. With another delegate, whether the framework creates a transition coordinator depends on that delegate, which is not modelled.
- Rendering, the view hierarchy and touch tracking are framework behaviour. The gesture's state and translation are inputs (`PanGestureRecognizer.Track`).
- The animator and interaction controller collaborators are not part of this model. The animator is its edge. The interaction controller is the gesture it is bound to. When the interaction controller cancels a transition is an input (`TransitionDidComplete(cancelled)`).
- The asynchronous timing of the completion block is not modelled. Completion is an explicit event, and the old-selection revert on cancellation is an assumption stated in `TabBarController.FinishTransition`.
- PanGestureRecognizer.SetEnabled: the framework moves a recognizing gesture to a failed or cancelled state when it is disabled. That is not modelled; the model only counts the disable/enable cycle.
- SlideTransition.SlideTransitionDelegate.BeginInteractiveTransitionIfPossible: requires that no transition is running. Both callers guarantee it (the guard at line 92; completion ends the transition first). What the framework does when the selection changes mid-transition is not modelled.
- Associated objects (lines 50 and 61) are Objective-C memory management. They appear only as the ghost `associated` field. Weak-reference deallocation of the controller is not modelled.
- The `tabBarController` getter (line 37) is a field read. The `assert` messages (lines 166 and 192) are text, and only the identity test is modelled, as a precondition.
- `CGFloat`/`CGPoint` arithmetic is not modelled. Only sign tests and the comparison with the zero point are used, on integers.
- `selectedIndex` is a natural number. The framework's "no selection" value (`NSNotFound`) is not modelled.
- Storyboard outlets and selector-string action dispatch are not modelled. The recognizer records its target. Its action is `PanGestureRecognizerDidPan`, called directly.
