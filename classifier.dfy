/**
  The text-field heuristic and the event router of TextAccessibilityService.
  The service keeps no state: each accessibility event is classified and
  turned into at most one command for the overlay service.
 */
module Classifier {
  import opened Wrappers

  // ---------------------------------------------------------------------
  // Substrings (Kotlin's String.contains)
  // ---------------------------------------------------------------------

  /** `t` occurs in `s` starting at index `i`. */
  predicate OccursAt(s: string, t: string, i: int) {
    0 <= i && i + |t| <= |s| && s[i..i + |t|] == t
  }

  /** Some slice of `s` equals `t`. */
  predicate Contains(s: string, t: string) {
    exists i :: 0 <= i <= |s| - |t| && OccursAt(s, t, i)
  }

  /** Containment of substrings is transitive. */
  lemma ContainsTransitive(s: string, u: string, t: string)
    requires Contains(s, u) && Contains(u, t)
    ensures Contains(s, t)
  {
    var i :| 0 <= i <= |s| - |u| && OccursAt(s, u, i);
    var j :| 0 <= j <= |u| - |t| && OccursAt(u, t, j);
    forall k | 0 <= k < |t|
      ensures s[i + j + k] == t[k]
    {
      assert t[k] == u[j + k] == s[i + j + k];
    }
    assert OccursAt(s, t, i + j);
  }

  /** A non-empty `t` whose first character never appears in `s` does not occur in `s`. */
  lemma MissingHeadNotContained(s: string, t: string)
    requires |t| > 0 && t[0] !in s
    ensures !Contains(s, t)
  {
    forall i | 0 <= i <= |s| - |t|
      ensures !OccursAt(s, t, i)
    {
      assert s[i..i + |t|][0] == s[i] != t[0];
    }
  }

  // ---------------------------------------------------------------------
  // isTextField
  // ---------------------------------------------------------------------

  /**
    The classifier once its inputs are defaulted: a class name (null read
    as "") and the source node's editable flag (null read as false). Each
    substring test of isTextField is kept, including the two that can never
    change the verdict (see RedundantTestsSubsumed).
   */
  function IsTextField(className: string, isEditable: bool): (r: bool)
    ensures isEditable ==> r
    ensures Contains(className, "EditText") || Contains(className, "Input") || Contains(className, "Field") ==> r
    ensures Contains(className, "AutoCompleteTextView") ==> r
    ensures !isEditable ==>
      (r <==> Contains(className, "EditText") || Contains(className, "Input") || Contains(className, "Field")
              || Contains(className, "TextInput") || Contains(className, "AutoCompleteTextView")
              || Contains(className, "MultiAutoCompleteTextView"))
  {
    var isEditText := Contains(className, "EditText");
    var isTextView := Contains(className, "TextView") && isEditable;
    var isInputField := Contains(className, "Input") || Contains(className, "Field");
    var isTextInput := Contains(className, "TextInput");
    var isWebView := Contains(className, "WebView") && isEditable;
    var isAutoCompleteTextView := Contains(className, "AutoCompleteTextView");
    var isMultiAutoCompleteTextView := Contains(className, "MultiAutoCompleteTextView");
    isEditText || isTextView || isInputField || isTextInput || isWebView
      || isAutoCompleteTextView || isMultiAutoCompleteTextView || isEditable
  }

  /**
    "MultiAutoCompleteTextView" contains "AutoCompleteTextView", and
    "TextInput" contains "Input": the two longer tests never hold alone.
   */
  lemma RedundantTestsSubsumed(className: string)
    ensures Contains(className, "MultiAutoCompleteTextView") ==> Contains(className, "AutoCompleteTextView")
    ensures Contains(className, "TextInput") ==> Contains(className, "Input")
  {
    var multi, auto := "MultiAutoCompleteTextView", "AutoCompleteTextView";
    assert OccursAt(multi, auto, 5);
    assert OccursAt("TextInput", "Input", 4);
    if Contains(className, multi) {
      ContainsTransitive(className, multi, auto);
    }
    if Contains(className, "TextInput") {
      ContainsTransitive(className, "TextInput", "Input");
    }
  }

  /**
    The classifier reduced to the tests that matter: editable, or a class
    name containing "EditText", "Input", "Field" or "AutoCompleteTextView".
    "TextView" and "WebView" only ever count together with the editable
    flag, which is enough by itself.
   */
  lemma IsTextFieldSimplified(className: string, isEditable: bool)
    ensures IsTextField(className, isEditable) <==>
      isEditable || Contains(className, "EditText") || Contains(className, "Input")
      || Contains(className, "Field") || Contains(className, "AutoCompleteTextView")
  {
    RedundantTestsSubsumed(className);
  }

  /** A class name with none of the characters 'E', 'I', 'F', 'A' never qualifies unless editable. */
  lemma NoCapitalHeadsNotTextField(className: string)
    requires 'E' !in className && 'I' !in className && 'F' !in className && 'A' !in className
    ensures !IsTextField(className, false)
  {
    IsTextFieldSimplified(className, false);
    MissingHeadNotContained(className, "EditText");
    MissingHeadNotContained(className, "Input");
    MissingHeadNotContained(className, "Field");
    MissingHeadNotContained(className, "AutoCompleteTextView");
  }

  /** A plain TextView or a Button that is not editable is not a text field. */
  lemma PlainWidgetsNotTextFields()
    ensures !IsTextField("android.widget.TextView", false)
    ensures !IsTextField("android.widget.Button", false)
  {
    NoCapitalHeadsNotTextField("android.widget.TextView");
    NoCapitalHeadsNotTextField("android.widget.Button");
  }

  /** An EditText is a text field even when its source is not reported editable. */
  lemma EditTextIsTextField()
    ensures IsTextField("android.widget.EditText", false)
  {
    assert OccursAt("android.widget.EditText", "EditText", 15);
  }

  // ---------------------------------------------------------------------
  // Events and routing (onAccessibilityEvent)
  // ---------------------------------------------------------------------

  /** The AccessibilityEvent type codes the service reacts to. */
  const TYPE_VIEW_CLICKED: int := 0x1
  const TYPE_VIEW_FOCUSED: int := 0x8
  const TYPE_VIEW_TEXT_CHANGED: int := 0x10
  const TYPE_WINDOW_STATE_CHANGED: int := 0x20

  /**
    What the service reads of an event: its type, its class name (may be
    null) and whether its source node is editable (None when the event has
    no source node).
   */
  datatype Event = Event(eventType: int, className: Option<string>, sourceEditable: Option<bool>)

  /** isTextField(event): the classifier applied to an event, with null fields defaulted. */
  function EventIsTextField(e: Event): (r: bool)
    ensures r <==> IsTextField(if e.className.Some? then e.className.value else "", e.sourceEditable == Some(true))
    ensures e.sourceEditable == Some(true) ==> r
  {
    IsTextField(e.className.GetOr(""), e.sourceEditable.GetOr(false))
  }

  /** An event with no class name and no source node is not a text field. */
  lemma NullEventFieldsNotTextField(e: Event)
    requires e.className.None? && e.sourceEditable.None?
    ensures !EventIsTextField(e)
  {
    NoCapitalHeadsNotTextField("");
  }

  /** The intent the accessibility service sends to the overlay service. */
  datatype Command = ShowBubble | HideBubble

  /** The "action" extra carried by the intent. */
  function Action(c: Command): (a: string)
    ensures a == "show_bubble" || a == "hide_bubble"
    ensures c.ShowBubble? <==> a == "show_bubble"
  {
    match c
    case ShowBubble => "show_bubble"
    case HideBubble => "hide_bubble"
  }

  /**
    onAccessibilityEvent: a null event, or one of another type, sends
    nothing; otherwise at most one command is sent.
   */
  function Route(e: Option<Event>): (r: Option<Command>)
    ensures r == Some(ShowBubble) <==>
      e.Some? && (e.value.eventType == TYPE_VIEW_FOCUSED || e.value.eventType == TYPE_VIEW_TEXT_CHANGED)
      && EventIsTextField(e.value)
    ensures r == Some(HideBubble) <==>
      e.Some? && (e.value.eventType == TYPE_WINDOW_STATE_CHANGED
                  || (e.value.eventType == TYPE_VIEW_CLICKED && !EventIsTextField(e.value)))
    ensures e.None? ==> r.None?
    ensures e.Some? && e.value.eventType !in {TYPE_VIEW_CLICKED, TYPE_VIEW_FOCUSED, TYPE_VIEW_TEXT_CHANGED, TYPE_WINDOW_STATE_CHANGED}
      ==> r.None?
  {
    match e
    case None => None
    case Some(ev) =>
      if ev.eventType == TYPE_VIEW_FOCUSED then
        if EventIsTextField(ev) then Some(ShowBubble) else None
      else if ev.eventType == TYPE_WINDOW_STATE_CHANGED then
        Some(HideBubble)
      else if ev.eventType == TYPE_VIEW_CLICKED then
        if !EventIsTextField(ev) then Some(HideBubble) else None
      else if ev.eventType == TYPE_VIEW_TEXT_CHANGED then
        if EventIsTextField(ev) then Some(ShowBubble) else None
      else
        None
  }

  /** Whatever the class name and source, a window-state change hides the bubble. */
  lemma WindowChangeAlwaysHides(className: Option<string>, sourceEditable: Option<bool>)
    ensures Route(Some(Event(TYPE_WINDOW_STATE_CHANGED, className, sourceEditable))) == Some(HideBubble)
  {
  }
}
