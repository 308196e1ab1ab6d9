/**
  The two services together: the accessibility service sends its command
  as the "action" extra of an intent, and the overlay service dispatches on
  that action. Each step pairs an event with the outcome of the window
  operation the resulting command runs.
 */
module Pipeline {
  import opened Wrappers
  import opened Classifier
  import opened Overlay

  /** One event delivered to the accessibility service, and whether addView/removeView returns normally. */
  datatype Step = Step(event: Option<Event>, ok: bool)

  /** The overlay state after one event: its command, if any, dispatched as an intent action. */
  function Deliver(s: OverlayState, st: Step): (t: OverlayState)
    ensures Route(st.event).None? ==> t == s
    ensures Route(st.event) == Some(ShowBubble) ==> t == ShowNext(s, st.ok)
    ensures Route(st.event) == Some(HideBubble) ==> t == HideNext(s, st.ok)
    ensures Inv(s) ==> Inv(t)
  {
    match Route(st.event)
    case None => s
    case Some(c) => Dispatch(s, Some(Action(c)), st.ok)
  }

  /** The overlay state after a sequence of events, in arrival order. */
  function Run(s: OverlayState, steps: seq<Step>): OverlayState
    decreases |steps|
  {
    if steps == [] then s else Run(Deliver(s, steps[0]), steps[1..])
  }

  /** The link between the two fields holds after any sequence of events. */
  lemma {:induction false} RunPreservesInv(s: OverlayState, steps: seq<Step>)
    requires Inv(s)
    ensures Inv(Run(s, steps))
    decreases |steps|
  {
    if steps != [] {
      RunPreservesInv(Deliver(s, steps[0]), steps[1..]);
    }
  }

  /** Events that route to no command leave the overlay exactly as it was. */
  lemma {:induction false} SilentRunIsIdle(s: OverlayState, steps: seq<Step>)
    requires forall i :: 0 <= i < |steps| ==> Route(steps[i].event).None?
    ensures Run(s, steps) == s
    decreases |steps|
  {
    if steps != [] {
      assert Route(steps[0].event).None?;
      SilentRunIsIdle(s, steps[1..]);
    }
  }

  /** Running two sequences one after the other is running their concatenation. */
  lemma {:induction false} RunAppend(s: OverlayState, xs: seq<Step>, ys: seq<Step>)
    ensures Run(s, xs + ys) == Run(Run(s, xs), ys)
    decreases |xs|
  {
    if xs == [] {
      assert xs + ys == ys;
    } else {
      assert (xs + ys)[1..] == xs[1..] + ys;
      RunAppend(Deliver(s, xs[0]), xs[1..], ys);
    }
  }

  /**
    From the service's creation, whatever happened before: a window-state
    change whose removeView succeeds leaves the bubble hidden.
   */
  lemma WindowChangeEndsHidden(steps: seq<Step>, className: Option<string>, sourceEditable: Option<bool>)
    ensures !Run(Initial, steps + [Step(Some(Event(TYPE_WINDOW_STATE_CHANGED, className, sourceEditable)), true)]).visible
  {
    var last := Step(Some(Event(TYPE_WINDOW_STATE_CHANGED, className, sourceEditable)), true);
    RunPreservesInv(Initial, steps);
    RunAppend(Initial, steps, [last]);
  }

  /**
    From the service's creation, whatever happened before: focusing a text
    field, with addView succeeding if it is called, leaves the bubble visible.
   */
  lemma FocusOnTextFieldEndsVisible(steps: seq<Step>, e: Event)
    requires e.eventType == TYPE_VIEW_FOCUSED && EventIsTextField(e)
    ensures Run(Initial, steps + [Step(Some(e), true)]).visible
  {
    RunPreservesInv(Initial, steps);
    RunAppend(Initial, steps, [Step(Some(e), true)]);
  }

  /**
    One event end to end: the accessibility service routes it, and the
    command, if any, reaches the overlay service as an intent action.
   */
  method HandleEvent(svc: OverlayService, e: Option<Event>, ok: bool)
    requires svc.Valid()
    modifies svc
    ensures svc.Valid()
    ensures svc.State() == Deliver(old(svc.State()), Step(e, ok))
  {
    var cmd := Route(e);
    if cmd.Some? {
      var _ := svc.OnStartCommand(Some(Action(cmd.value)), ok);
    }
  }
}
