/**
  The visibility state machine of OverlayService. The service owns two
  fields, `isOverlayVisible` and `overlayView`; the window manager's
  addView/removeView calls are reduced to whether they returned normally
  (`addOk`, `removeOk`) or threw.
 */
module Overlay {
  import opened Wrappers

  /** `visible` is isOverlayVisible; `hasView` is overlayView != null. */
  datatype OverlayState = OverlayState(visible: bool, hasView: bool)

  /** The fields as the service is created: hidden, no view inflated. */
  const Initial := OverlayState(false, false)

  /** Service.START_STICKY, the value onStartCommand always returns. */
  const START_STICKY: int := 1

  /** The bubble is never marked visible without a view behind it. */
  predicate Inv(s: OverlayState) {
    s.visible ==> s.hasView
  }

  /**
    showOverlay: nothing happens when already visible; otherwise a view is
    inflated and stored, and the overlay is marked visible only when
    addView returns normally.
   */
  function ShowNext(s: OverlayState, addOk: bool): (t: OverlayState)
    ensures s.visible ==> t == s
    ensures !s.visible ==> t.hasView && (t.visible <==> addOk)
    ensures !addOk ==> t.visible == s.visible
    ensures Inv(s) ==> Inv(t)
    ensures Inv(s) && addOk ==> t.visible && t.hasView
  {
    if s.visible then s else OverlayState(addOk, true)
  }

  /**
    hideOverlay: acts only when visible with a view; a removeView that
    returns normally clears both fields, one that throws changes nothing.
   */
  function HideNext(s: OverlayState, removeOk: bool): (t: OverlayState)
    ensures !(s.visible && s.hasView) ==> t == s
    ensures !removeOk ==> t == s
    ensures s.visible && s.hasView && removeOk ==> t == Initial
    ensures Inv(s) ==> Inv(t)
    ensures Inv(s) && removeOk ==> !t.visible
  {
    if s.visible && s.hasView then
      (if removeOk then OverlayState(false, false) else s)
    else
      s
  }

  /**
    The action dispatch of onStartCommand. `ok` is the outcome of the one
    window operation the action runs, if any.
   */
  function Dispatch(s: OverlayState, action: Option<string>, ok: bool): (t: OverlayState)
    ensures action == Some("show_bubble") ==> t == ShowNext(s, ok)
    ensures action == Some("hide_bubble") ==> t == HideNext(s, ok)
    ensures action == Some("toggle_bubble") ==> t == (if s.visible then HideNext(s, ok) else ShowNext(s, ok))
    ensures action == Some("toggle_bubble") && Inv(s) && ok ==> t.visible == !s.visible
    ensures action == Some("toggle_bubble") && !ok ==> t.visible == s.visible
    ensures action !in {Some("show_bubble"), Some("hide_bubble"), Some("toggle_bubble")} ==> t == s
    ensures Inv(s) ==> Inv(t)
  {
    match action
    case Some("show_bubble") => ShowNext(s, ok)
    case Some("hide_bubble") => HideNext(s, ok)
    case Some("toggle_bubble") => if s.visible then HideNext(s, ok) else ShowNext(s, ok)
    case _ => s
  }

  /** A successful show is idempotent: showing again changes nothing, whatever addView would do. */
  lemma ShowIdempotent(s: OverlayState, addOk: bool)
    ensures ShowNext(ShowNext(s, true), addOk) == ShowNext(s, true)
  {
  }

  /** A successful hide is idempotent, and hiding a hidden overlay is a no-op. */
  lemma HideIdempotent(s: OverlayState, removeOk: bool)
    ensures HideNext(HideNext(s, true), removeOk) == HideNext(s, true)
  {
  }

  /** Two successful toggles bring the state back to where it was, once a view exists. */
  lemma ToggleTwiceRestoresVisibility(s: OverlayState)
    requires Inv(s)
    ensures Dispatch(Dispatch(s, Some("toggle_bubble"), true), Some("toggle_bubble"), true).visible == s.visible
  {
  }

  /** The service object: the two fields and the methods that update them in place. */
  class OverlayService {
    var isOverlayVisible: bool
    var hasOverlayView: bool

    /** The fields as an abstract value. */
    function State(): OverlayState
      reads this
    {
      OverlayState(isOverlayVisible, hasOverlayView)
    }

    ghost predicate Valid()
      reads this
    {
      Inv(State())
    }

    /** The service as created (onCreate): hidden, no view. */
    constructor ()
      ensures Valid() && State() == Initial
    {
      isOverlayVisible := false;
      hasOverlayView := false;
    }

    method ShowOverlay(addOk: bool)
      requires Valid()
      modifies this
      ensures Valid()
      ensures State() == ShowNext(old(State()), addOk)
    {
      if isOverlayVisible {
        return;
      }
      // the inflated view is stored before addView is attempted
      hasOverlayView := true;
      if addOk {
        isOverlayVisible := true;
      }
    }

    method HideOverlay(removeOk: bool)
      requires Valid()
      modifies this
      ensures Valid()
      ensures State() == HideNext(old(State()), removeOk)
    {
      if isOverlayVisible && hasOverlayView {
        if removeOk {
          hasOverlayView := false;
          isOverlayVisible := false;
        }
      }
    }

    method OnStartCommand(action: Option<string>, ok: bool) returns (r: int)
      requires Valid()
      modifies this
      ensures Valid()
      ensures State() == Dispatch(old(State()), action, ok)
      ensures r == START_STICKY
    {
      match action {
        case Some("show_bubble") =>
          ShowOverlay(ok);
        case Some("hide_bubble") =>
          HideOverlay(ok);
        case Some("toggle_bubble") =>
          if isOverlayVisible {
            HideOverlay(ok);
          } else {
            ShowOverlay(ok);
          }
        case _ =>
      }
      r := START_STICKY;
    }

    /** The close button's click listener. */
    method OnCloseClicked(removeOk: bool)
      requires Valid()
      modifies this
      ensures Valid()
      ensures State() == HideNext(old(State()), removeOk)
      ensures removeOk ==> !isOverlayVisible
    {
      HideOverlay(removeOk);
    }

    method OnDestroy(removeOk: bool)
      requires Valid()
      modifies this
      ensures Valid()
      ensures State() == HideNext(old(State()), removeOk)
      ensures removeOk ==> !isOverlayVisible
    {
      HideOverlay(removeOk);
    }
  }
}
