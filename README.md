# focus_bubble: text-field classifier and overlay state machine

This project models the native core of the focus_bubble Android add-on. The
add-on has two services:

- **TextAccessibilityService** receives accessibility events from every app.
  It decides from the event's class name and its source node's editable flag
  whether the user is in a text field. It then sends the overlay service at
  most one intent: `show_bubble` or `hide_bubble`.
- **OverlayService** owns the floating bubble. It has two fields,
  `isOverlayVisible` and `overlayView`. Its `showOverlay` and `hideOverlay`
  update these fields. Its `onStartCommand` dispatches on the intent's
  action. `onDestroy` and the bubble's close button both hide it.

Files:

- `wrappers.dfy`: `Option`, which stands for Kotlin's nullable values and the `?:` default.
- `classifier.dfy`: module `Classifier`. It defines substring containment, `IsTextField`, the event record, the `Command` sent between the services and `Route`.
- `overlay.dfy`: module `Overlay`. It has the state as a value (`OverlayState`) and the pure transitions `ShowNext`, `HideNext` and `Dispatch`. Its class `OverlayService` has methods that update the two fields in place, and each method is proved equal to the matching transition.
- `pipeline.dfy`: module `Pipeline`. It joins the two services. Each event's command is delivered as an intent action. It also proves facts about any sequence of events.

Window-manager calls become a success flag (`addOk`, `removeOk`, `ok`). The flag says whether `addView`/`removeView` returned normally or threw. A throw is caught, and only what was assigned before it stays.

Behaviour worth knowing:

- The add-on has no inactivity timer.
- The classifier has no content-description clause and no text-length clause.
- A click outside a text field also hides the bubble.
- `showOverlay` stores the inflated view before `addView`. So when `addView` throws, `overlayView` is set but `isOverlayVisible` stays false.

## Model

| member | source | states |
|---|---|---|
| `Classifier.IsTextField` | android/app/src/main/kotlin/com/appibrium/focus_bubble/TextAccessibilityService.kt:78-94 | an editable source is always a text field; without the editable flag the verdict is exactly the OR of the class-name tests other than "TextView" and "WebView" |
| `Classifier.RedundantTestsSubsumed` | android/app/src/main/kotlin/com/appibrium/focus_bubble/TextAccessibilityService.kt:84-88 | a class name containing "MultiAutoCompleteTextView" contains "AutoCompleteTextView", and one containing "TextInput" contains "Input", so these two tests never decide the result |
| `Classifier.IsTextFieldSimplified` | android/app/src/main/kotlin/com/appibrium/focus_bubble/TextAccessibilityService.kt:82-90 | the classifier holds iff the source is editable or the class name contains "EditText", "Input", "Field" or "AutoCompleteTextView" |
| `Classifier.NoCapitalHeadsNotTextField` | android/app/src/main/kotlin/com/appibrium/focus_bubble/TextAccessibilityService.kt:82-90 | a non-editable class name without any of the letters E, I, F, A is not a text field |
| `Classifier.PlainWidgetsNotTextFields` | android/app/src/main/kotlin/com/appibrium/focus_bubble/TextAccessibilityService.kt:82-90 | a non-editable "android.widget.TextView" is classified false, so "TextView" alone does not qualify; a non-editable "android.widget.Button" is classified false |
| `Classifier.EditTextIsTextField` | android/app/src/main/kotlin/com/appibrium/focus_bubble/TextAccessibilityService.kt:82-90 | "android.widget.EditText" is a text field even when its source is not editable |
| `Classifier.EventIsTextField` | android/app/src/main/kotlin/com/appibrium/focus_bubble/TextAccessibilityService.kt:78-80 | isTextField(event) reads a null class name as "" and a missing source node as not editable; an editable source node always makes the event a text field |
| `Classifier.NullEventFieldsNotTextField` | android/app/src/main/kotlin/com/appibrium/focus_bubble/TextAccessibilityService.kt:79-90 | a null class name and a null source default to "" and false, and the result is then false |
| `Classifier.Action` | android/app/src/main/kotlin/com/appibrium/focus_bubble/TextAccessibilityService.kt:39-67 | the intent's action extra is "show_bubble" exactly for the show command, otherwise "hide_bubble" |
| `Classifier.Route` | android/app/src/main/kotlin/com/appibrium/focus_bubble/TextAccessibilityService.kt:29-72 | show is sent iff a focus or text-change event is on a text field; hide is sent iff the window state changed or a click is on something that is not a text field; a null event or any other event type sends nothing; never more than one command |
| `Classifier.WindowChangeAlwaysHides` | android/app/src/main/kotlin/com/appibrium/focus_bubble/TextAccessibilityService.kt:44-50 | a window-state change sends hide, whatever the class name and source |
| `Overlay.ShowNext` | android/app/src/main/kotlin/com/appibrium/focus_bubble/OverlayService.kt:91-142 | when already visible nothing changes; otherwise a view is stored and the overlay becomes visible iff addView succeeds; a failed addView leaves the visible flag unchanged; the invariant visible ⇒ view is kept |
| `Overlay.HideNext` | android/app/src/main/kotlin/com/appibrium/focus_bubble/OverlayService.kt:144-157 | a no-op unless visible with a view; a successful removeView clears both fields; a failed one changes nothing; the invariant is kept, and under it a successful hide leaves the overlay not visible |
| `Overlay.Dispatch` | android/app/src/main/kotlin/com/appibrium/focus_bubble/OverlayService.kt:44-61 | "show_bubble" shows, "hide_bubble" hides, "toggle_bubble" hides when visible and shows when hidden, so it flips the visible flag when the window operation succeeds and keeps it when it fails; a missing or unknown action changes nothing; the invariant is kept |
| `Overlay.ShowIdempotent` | android/app/src/main/kotlin/com/appibrium/focus_bubble/OverlayService.kt:93-96 | in any state, after a successful show, showing again changes nothing |
| `Overlay.HideIdempotent` | android/app/src/main/kotlin/com/appibrium/focus_bubble/OverlayService.kt:146-154 | after a successful hide, hiding again changes nothing |
| `Overlay.ToggleTwiceRestoresVisibility` | android/app/src/main/kotlin/com/appibrium/focus_bubble/OverlayService.kt:53-59 | two successful toggles restore the visible flag |
| `Overlay.OverlayService.constructor` | android/app/src/main/kotlin/com/appibrium/focus_bubble/OverlayService.kt:23-25 | the service starts hidden with no view, which satisfies the invariant |
| `Overlay.OverlayService.ShowOverlay` | android/app/src/main/kotlin/com/appibrium/focus_bubble/OverlayService.kt:91-142 | updates the two fields in place exactly as `ShowNext` and keeps the invariant |
| `Overlay.OverlayService.HideOverlay` | android/app/src/main/kotlin/com/appibrium/focus_bubble/OverlayService.kt:144-157 | updates the two fields in place exactly as `HideNext` and keeps the invariant |
| `Overlay.OverlayService.OnStartCommand` | android/app/src/main/kotlin/com/appibrium/focus_bubble/OverlayService.kt:39-64 | updates the fields exactly as `Dispatch` and always returns START_STICKY |
| `Overlay.OverlayService.OnCloseClicked` | android/app/src/main/kotlin/com/appibrium/focus_bubble/OverlayService.kt:134-137 | the close button hides the bubble, which is not visible after a successful removal |
| `Overlay.OverlayService.OnDestroy` | android/app/src/main/kotlin/com/appibrium/focus_bubble/OverlayService.kt:159-163 | destroying the service hides the bubble, which is not visible after a successful removal |
| `Pipeline.Deliver` | android/app/src/main/kotlin/com/appibrium/focus_bubble/TextAccessibilityService.kt:33-70 | an event with no command leaves the overlay state as it was; a show or hide command acts as `showOverlay`/`hideOverlay` on the overlay state; the invariant is kept |
| `Pipeline.HandleEvent` | android/app/src/main/kotlin/com/appibrium/focus_bubble/TextAccessibilityService.kt:29-72 | routing one event and starting the overlay service with its action (dispatched as at OverlayService.kt lines 44-61) changes the service's fields exactly as `Deliver` |
| `Pipeline.RunPreservesInv` | android/app/src/main/kotlin/com/appibrium/focus_bubble/OverlayService.kt:91-157 | after any sequence of events, a visible bubble always has a view |
| `Pipeline.SilentRunIsIdle` | android/app/src/main/kotlin/com/appibrium/focus_bubble/TextAccessibilityService.kt:33-70 | events that route to no command leave the overlay unchanged |
| `Pipeline.WindowChangeEndsHidden` | android/app/src/main/kotlin/com/appibrium/focus_bubble/TextAccessibilityService.kt:44-50 | from service creation and after any history, a window-state change with a successful removeView leaves the bubble hidden |
| `Pipeline.FocusOnTextFieldEndsVisible` | android/app/src/main/kotlin/com/appibrium/focus_bubble/TextAccessibilityService.kt:34-43 | from service creation and after any history, focusing a text field with a successful addView leaves the bubble visible |

## Left out

- Accessibility service configuration (`onServiceConnected`) and `onInterrupt`: these are platform setup with no logic.
- Notification channel and foreground notification (`createNotificationChannel`, `createNotification`, `startForeground`): these are platform calls.
- View inflation, `WindowManager.LayoutParams`, gravity and position: these are rendering. `Overlay.ShowNext` assumes inflation succeeds. An exception from `LayoutInflater.inflate` would leave both fields unchanged, and the model does not cover that case.
- `windowManager` is treated as non-null because `onCreate` sets it. If it were null, the `?.` calls would skip `addView`/`removeView` and behave like a successful call.
- The check and fix buttons' click listeners do nothing, so they are not modelled.
- Intent transport (`startService`, `putExtra`, `getStringExtra`): the command is passed as a value and its action string is the intent extra.
- Logging (`Log.d`, `Log.e`, `printStackTrace`): it has no effect on state.
- `MainActivity.kt` is not part of this model. It is method-channel plumbing, permission checks and settings launches, and its `isOverlayVisible` always returns false.
- `Overlay.OverlayService.OnCloseClicked` does not model that the close listener is only attached after a successful `addView`. The method accepts a click in any state, and `hideOverlay` makes such a click a no-op when nothing is shown.
