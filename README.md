# Touch-bar build and debug controls: a verified model

This project models the decision logic of the MonoDevelop touch-bar add-in.
The add-in is a startup command handler that listens to eight IDE lifecycle
events: a workspace item opened or closed, a build started or ended, and a
debug session started, paused, resumed or stopped. On each event it assigns one
stored flag, the delegate's `IsRunning`. It then installs a freshly built touch
bar on the window, or removes the bar when a workspace item is closed. The bar's
delegate makes two items on demand:

- a build button that shows stop while running and play otherwise;
- a four-segment debug control (pause/resume, step over, step out, step into).
  It is hidden when nothing is running or paused.

Pressing the button or a segment sends at most one request to the debugger or
to the project operations.

The model has four modules:

- `Wrappers` (`wrappers.dfy`): the `Option` type that stands for nullable references.
- `ItemBuilder` (`item_builder.dfy`): the delegate's item factory. Glyphs are
  tags, and items are descriptors (`Item`, `View`, `Segment`). `ItemFor` is the
  specification. `MakeItem` is the method that builds the control as the
  source does: every segment starts enabled, and a `for` loop then sets the
  enabled state of segments 1 to 3.
- `Activation` (`activation.dfy`): the build-button and debug-control handlers.
  The IDE's answers form an `Environment` record. The debugger flags and the
  selected build target and solution are inputs. Each handler returns an
  `Intent` instead of calling the IDE. `SegmentedControl` is a class, because
  `Debug_Activated` changes the control's selection in place.
- `Projector` (`projector.dfy`): the `StartupHandler` class. It holds the
  delegate's `isRunning` flag, the bar installed on the window and the number of
  subscriptions. There is one method per event handler, plus `Run`. The pure
  `Step`/`Replay` functions specify these methods. `Shown` gives what the window
  displays for a state, given the debugger's current flags.

The debugger's pause state is never stored: the source re-reads
`DebuggingService.IsPaused` every time it needs it. Here that flag (`dsPaused`)
and `DebuggingService.IsRunning` (`dsRunning`) are parameters.

## Behaviour of the add-in worth noting

- The add-in stores only `IsRunning`. The pause state is re-read from the
  debugger whenever an item is built or a segment is pressed.
- Opening a workspace item clears `IsRunning`, as EndBuild, Stopped and
  closing a workspace item do.
- `IsRunning` alone makes the debug control visible. So after a build starts,
  the debug control is shown even with no debug session (`BuildStartedScenario`).
- `Run` builds a bar and drops it. Nothing is shown before the first lifecycle
  event; the bar appears only when the first handler installs it.
- When segment 0 is pressed with no selected build target, the handler returns
  before deselecting. A segment index outside 0..3 requests nothing but is
  still passed to `SetSelected`.
- `Build_Activated` checks only the selected build target. A selected solution
  without a selected build target does nothing.

## Model

| member | source | states |
|---|---|---|
| `ItemBuilder.BuildPlayImage` | MonoDevelop.TouchBar/StartupHandler.cs:196-199 | the build glyph is record-stop exactly when IsRunning, otherwise play |
| `ItemBuilder.BuildDebugImage` | MonoDevelop.TouchBar/StartupHandler.cs:191-194 | the toggle glyph is play exactly when the debugger is paused, otherwise pause |
| `ItemBuilder.DebugSegments` | MonoDevelop.TouchBar/StartupHandler.cs:176-179 | there are exactly 4 segments, with glyphs toggle, step over, step out, step into in that order; segment 0 stays enabled; segments 1..3 are enabled iff the debugger is paused |
| `ItemBuilder.ItemFor` | MonoDevelop.TouchBar/StartupHandler.cs:160-187 | an item exists iff the identifier is "md.build", or it is "md.debug" and IsRunning, the debugger running or paused holds; any other identifier gives none; the build item is a button with the build glyph; the debug item is the 4-segment control |
| `ItemBuilder.MakeItem` | MonoDevelop.TouchBar/StartupHandler.cs:160-187 | creating the control with all segments enabled, then looping over segments 1..3 to set their enabled state, gives exactly the item `ItemFor` specifies |
| `Activation.GetRunTarget` | MonoDevelop.TouchBar/StartupHandler.cs:136-139 | a run target exists iff a solution or a build target is selected; a selected solution takes priority |
| `Activation.BuildActivated` | MonoDevelop.TouchBar/StartupHandler.cs:227-239 | NoOp iff no build target is selected; Stop iff a target is selected and a session runs unpaused; otherwise Debug of the solution if selected, else of the build target |
| `Activation.RunTargetPresentAfterGuard` | MonoDevelop.TouchBar/StartupHandler.cs:229-237 | past the build-target guard the `target != null` test always holds, so the else branch always requests Debug |
| `Activation.DebugDecision` | MonoDevelop.TouchBar/StartupHandler.cs:201-225 | segment 0 gives NoOp without deselecting when no build target is selected, else Resume if paused and Pause otherwise; segments 1, 2, 3 give StepOver, StepOut, StepInto; any other index gives NoOp; every other path deselects; never Stop or Debug |
| `Activation.SegmentedControl.constructor` | MonoDevelop.TouchBar/StartupHandler.cs:177 | a new select-any control has no segment selected |
| `Activation.NewDebugControl` | MonoDevelop.TouchBar/StartupHandler.cs:176-177 | the debug control is made with four segments, none selected |
| `Activation.SegmentedControl.SetSelected` | MonoDevelop.TouchBar/StartupHandler.cs:224 | only the named segment's selection changes |
| `Activation.DebugActivated` | MonoDevelop.TouchBar/StartupHandler.cs:201-225 | returns the intent `DebugDecision` gives for the control's selected segment; the selected segment is deselected iff the decision says so, and nothing else in the control changes |
| `Projector.Step` | MonoDevelop.TouchBar/StartupHandler.cs:62-116 | after StartBuild, DebugSessionStarted, Paused or Resumed IsRunning is true; after the other four events it is false; a bar with identifiers ["md.build", "md.debug"] is installed after every event except closing a workspace item, which leaves none |
| `Projector.StepIdempotent` | MonoDevelop.TouchBar/StartupHandler.cs:62-116 | handling an event twice gives the same state as handling it once |
| `Projector.ReplayLast` | MonoDevelop.TouchBar/StartupHandler.cs:62-116 | after any non-empty event sequence the state is the last event's step alone |
| `Projector.ReplayForgetsStart` | MonoDevelop.TouchBar/StartupHandler.cs:62-116 | after a non-empty event sequence the starting state no longer matters |
| `Projector.ReplayRunningIff` | MonoDevelop.TouchBar/StartupHandler.cs:62-116 | IsRunning after a non-empty sequence holds iff some event that sets it is not followed by any event that clears it |
| `Projector.RunningFromInitialIff` | MonoDevelop.TouchBar/StartupHandler.cs:62-116 | for every event sequence from a new handler, the empty one included, IsRunning holds iff some event that sets it is not followed by any event that clears it |
| `Projector.ReplayBar` | MonoDevelop.TouchBar/StartupHandler.cs:90-95 | after a non-empty sequence no bar is installed iff the last event closed a workspace item; otherwise the bar asks for the default identifiers |
| `Projector.RenderedDefault` | MonoDevelop.TouchBar/StartupHandler.cs:143-146 | a bar asking for the default identifiers shows the build button, then the debug control exactly when it is visible |
| `Projector.ShownAfterEvent` | MonoDevelop.TouchBar/StartupHandler.cs:62-116 | right after an event the window shows nothing if a workspace item was closed; otherwise it shows the build button with the glyph for the new IsRunning, then the debug control when visible |
| `Projector.WorkspaceOpenedScenario` | MonoDevelop.TouchBar/StartupHandler.cs:97-102 | opening a workspace item with no debugger activity shows only the play button |
| `Projector.WorkspaceClosedScenario` | MonoDevelop.TouchBar/StartupHandler.cs:90-95 | closing a workspace item leaves nothing shown, whatever came before |
| `Projector.BuildStartedScenario` | MonoDevelop.TouchBar/StartupHandler.cs:111-116 | a build start shows the stop button and the debug control with disabled step segments |
| `Projector.DebugPausedScenario` | MonoDevelop.TouchBar/StartupHandler.cs:69-74 | a pause shows the stop button and the control with the play toggle and enabled step segments |
| `Projector.DebugResumedScenario` | MonoDevelop.TouchBar/StartupHandler.cs:62-67 | a resume shows the pause toggle and disabled step segments |
| `Projector.DebugStoppedScenario` | MonoDevelop.TouchBar/StartupHandler.cs:83-88 | a stop with no debugger activity shows only the play button |
| `Projector.TouchBar.constructor` | MonoDevelop.TouchBar/StartupHandler.cs:120-124 | a bar keeps the identifiers it was built with |
| `Projector.StartupHandler.constructor` | MonoDevelop.TouchBar/StartupHandler.cs:33-38 | a new handler is not running, has no bar installed and no subscriptions |
| `Projector.StartupHandler.MakeTouchBar` | MonoDevelop.TouchBar/StartupHandler.cs:118-126 | returns a new bar asking for ["md.build", "md.debug"] |
| `Projector.StartupHandler.Run` | MonoDevelop.TouchBar/StartupHandler.cs:45-60 | without touch-bar support or a window nothing changes; otherwise the handlers are attached once more; IsRunning and the installed bar are never changed (the bar it builds is not installed) |
| `Projector.StartupHandler.OnResumed` | MonoDevelop.TouchBar/StartupHandler.cs:62-67 | sets IsRunning and installs a fresh default bar |
| `Projector.StartupHandler.OnPaused` | MonoDevelop.TouchBar/StartupHandler.cs:69-74 | sets IsRunning (a pause counts as running) and installs a fresh default bar |
| `Projector.StartupHandler.OnDebugSessionStarted` | MonoDevelop.TouchBar/StartupHandler.cs:76-81 | sets IsRunning and installs a fresh default bar |
| `Projector.StartupHandler.OnStopped` | MonoDevelop.TouchBar/StartupHandler.cs:83-88 | clears IsRunning and installs a fresh default bar |
| `Projector.StartupHandler.OnSolutionClosed` | MonoDevelop.TouchBar/StartupHandler.cs:90-95 | clears IsRunning and removes the bar |
| `Projector.StartupHandler.OnSolutionOpened` | MonoDevelop.TouchBar/StartupHandler.cs:97-102 | clears IsRunning and installs a fresh default bar |
| `Projector.StartupHandler.OnEndBuild` | MonoDevelop.TouchBar/StartupHandler.cs:104-109 | clears IsRunning and installs a fresh default bar |
| `Projector.StartupHandler.OnStartBuild` | MonoDevelop.TouchBar/StartupHandler.cs:111-116 | sets IsRunning and installs a fresh default bar |
| `Projector.StartupHandler.Handle` | MonoDevelop.TouchBar/StartupHandler.cs:52-59 | each event goes to its own handler, and the state afterwards is `Step` of the state before |
| `Projector.StartupHandler.Deliver` | MonoDevelop.TouchBar/StartupHandler.cs:52-59 | an event raised before Run attaches the handlers changes nothing; otherwise one `Step`, however many times the handlers are attached |

## Left out

- Native rendering (touch bar, button, segmented control, images): items are descriptors, and glyphs are tags.
- Window lookup and the runtime probe for touch-bar support: they become the two boolean parameters of `Run`. The model has one window; it does not model the key window changing, or the window list being empty, which would make `Run` and the handlers throw (the window getter calls `First()` before any null test), so `Run`'s no-window branch stands for a lookup that in the source throws rather than returns null; either way nothing is subscribed and nothing changes.
- Icon loading and the conversion to native images: the three step icons are fixed glyph tags.
- The constructor's call that enables the customize-touch-bar menu item: host state only.
- Event subscription by delegates: modelled as a subscription counter and an explicit `Handle`/`Deliver` dispatch.
- The placeholder action closures that throw when invoked, the unused `BuildRequested` handler and all debug logging: placeholder code or logging with no behaviour.
- What the debugger and the project operations do with Stop, Debug, Pause, Resume and the step requests: the model stops at the returned `Intent`.
- How the host sets `SelectedSegment` when a segment is clicked: it is a field the handler only reads.
- Activation.SegmentedControl.SetSelected: an index outside the control is modelled as changing nothing, because the native control's behaviour for such an index is not part of this model.
- Concurrency: every callback arrives in order on the UI thread, so the model is sequential.
