/**
 * The startup command handler (StartupHandler in
 * MonoDevelop.TouchBar/StartupHandler.cs): it subscribes to eight IDE
 * lifecycle events, and each handler assigns the delegate's IsRunning flag and
 * then installs a freshly built touch bar on the window, or removes the bar
 * when a workspace item is closed.
 *
 * The debugger's pause state is not stored here: the item factory reads it
 * from the debugger whenever it builds an item, so it is an input of Shown.
 */
module Projector {
  import opened Wrappers
  import opened ItemBuilder

  /** The eight lifecycle events the handler subscribes to. */
  datatype Event =
    | WorkspaceItemOpened
    | WorkspaceItemClosed
    | StartBuild
    | EndBuild
    | DebugSessionStarted
    | Paused
    | Resumed
    | Stopped

  /** The events whose handler sets IsRunning (a pause still counts as running). */
  predicate SetsRunning(e: Event)
  {
    e.StartBuild? || e.DebugSessionStarted? || e.Paused? || e.Resumed?
  }

  /** The events whose handler clears IsRunning. */
  predicate ClearsRunning(e: Event)
  {
    e.WorkspaceItemOpened? || e.WorkspaceItemClosed? || e.EndBuild? || e.Stopped?
  }

  /**
   * The observable state: the delegate's IsRunning flag and the default
   * identifiers of the bar installed on the window (None when none is).
   */
  datatype ProjectorState = ProjectorState(isRunning: bool, bar: Option<seq<string>>)

  /** The state when the handler is constructed: not running, no bar installed. */
  const Initial: ProjectorState := ProjectorState(false, None)

  /** The state after one event's handler has run, whatever the state before. */
  function Step(s: ProjectorState, e: Event): (r: ProjectorState)
    ensures r.isRunning <==> SetsRunning(e)
    ensures !r.isRunning <==> ClearsRunning(e)
    ensures r.bar.None? <==> e == WorkspaceItemClosed
    ensures r.bar.Some? ==> r.bar.value == ["md.build", "md.debug"]
  {
    match e
    case Resumed => ProjectorState(true, Some(DefaultIdentifiers))
    case Paused => ProjectorState(true, Some(DefaultIdentifiers))
    case DebugSessionStarted => ProjectorState(true, Some(DefaultIdentifiers))
    case Stopped => ProjectorState(false, Some(DefaultIdentifiers))
    case WorkspaceItemClosed => ProjectorState(false, None)
    case WorkspaceItemOpened => ProjectorState(false, Some(DefaultIdentifiers))
    case EndBuild => ProjectorState(false, Some(DefaultIdentifiers))
    case StartBuild => ProjectorState(true, Some(DefaultIdentifiers))
  }

  /** The state after the events, in arrival order. */
  function Replay(s: ProjectorState, events: seq<Event>): ProjectorState
    decreases |events|
  {
    if events == [] then s else Replay(Step(s, events[0]), events[1..])
  }

  /** Handling the same event twice is handling it once. */
  lemma StepIdempotent(s: ProjectorState, e: Event)
    ensures Step(Step(s, e), e) == Step(s, e)
  {
  }

  /** After a non-empty sequence of events, only the last event matters. */
  lemma {:induction false} ReplayLast(s: ProjectorState, events: seq<Event>)
    requires events != []
    ensures Replay(s, events) == Step(s, events[|events| - 1])
    decreases |events|
  {
    if |events| > 1 {
      var rest := events[1..];
      ReplayLast(Step(s, events[0]), rest);
      assert rest[|rest| - 1] == events[|events| - 1];
    }
  }

  /** The state before a non-empty sequence of events is forgotten. */
  lemma {:induction false} ReplayForgetsStart(s1: ProjectorState, s2: ProjectorState, events: seq<Event>)
    requires events != []
    ensures Replay(s1, events) == Replay(s2, events)
  {
    ReplayLast(s1, events);
    ReplayLast(s2, events);
  }

  /**
   * IsRunning after a non-empty sequence of events holds exactly when some
   * event that sets it has not been followed by one that clears it.
   */
  lemma ReplayRunningIff(s: ProjectorState, events: seq<Event>)
    requires events != []
    ensures Replay(s, events).isRunning <==>
      exists i :: 0 <= i < |events| && SetsRunning(events[i]) &&
        forall j :: i < j < |events| ==> !ClearsRunning(events[j])
  {
    var n := |events|;
    ReplayLast(s, events);
    if Replay(s, events).isRunning {
      assert SetsRunning(events[n - 1]);
    } else {
      forall i | 0 <= i < n && SetsRunning(events[i])
        ensures exists j :: i < j < n && ClearsRunning(events[j])
      {
        assert i != n - 1;
        assert ClearsRunning(events[n - 1]);
      }
    }
  }

  /** From a new handler, for every sequence of events including the empty one,
      IsRunning holds exactly when a setting event is not followed by a clearing one. */
  lemma {:induction false} RunningFromInitialIff(events: seq<Event>)
    ensures Replay(Initial, events).isRunning <==>
      exists i :: 0 <= i < |events| && SetsRunning(events[i]) &&
        forall j :: i < j < |events| ==> !ClearsRunning(events[j])
  {
    if events != [] {
      ReplayRunningIff(Initial, events);
    }
  }

  /** A bar is installed after a non-empty sequence of events unless the last
      one closed a workspace item. */
  lemma ReplayBar(s: ProjectorState, events: seq<Event>)
    requires events != []
    ensures Replay(s, events).bar.None? <==> events[|events| - 1] == WorkspaceItemClosed
    ensures Replay(s, events).bar.Some? ==> Replay(s, events).bar.value == DefaultIdentifiers
  {
    ReplayLast(s, events);
  }

  /** The items the bar shows: for each identifier in order, the item the
      delegate makes for it, skipping identifiers it makes none for. */
  function Rendered(ids: seq<string>, isRunning: bool, dsRunning: bool, dsPaused: bool): seq<Item>
    decreases |ids|
  {
    if ids == [] then []
    else
      (match ItemFor(ids[0], isRunning, dsRunning, dsPaused)
       case Some(item) => [item]
       case None => [])
      + Rendered(ids[1..], isRunning, dsRunning, dsPaused)
  }

  /** What the window shows in a state, given the debugger's flags. */
  function Shown(s: ProjectorState, dsRunning: bool, dsPaused: bool): seq<Item>
  {
    match s.bar
    case None => []
    case Some(ids) => Rendered(ids, s.isRunning, dsRunning, dsPaused)
  }

  /** A bar built by the handler shows the build button, then the debug control when it is visible. */
  lemma RenderedDefault(isRunning: bool, dsRunning: bool, dsPaused: bool)
    ensures Rendered(DefaultIdentifiers, isRunning, dsRunning, dsPaused) ==
      [Item(BuildId, Button(BuildPlayImage(isRunning)))] +
      (if DebugVisible(isRunning, dsRunning, dsPaused) then [Item(DebugId, Segmented(DebugSegments(dsPaused)))] else [])
  {
    var ids := DefaultIdentifiers;
    assert ids[1..][1..] == [];
    assert Rendered(ids[1..][1..], isRunning, dsRunning, dsPaused) == [];
  }

  /** What the window shows right after an event's handler has run. */
  lemma ShownAfterEvent(s: ProjectorState, e: Event, dsRunning: bool, dsPaused: bool)
    ensures e == WorkspaceItemClosed ==> Shown(Step(s, e), dsRunning, dsPaused) == []
    ensures e != WorkspaceItemClosed ==>
      (Shown(Step(s, e), dsRunning, dsPaused) ==
       [Item(BuildId, Button(BuildPlayImage(SetsRunning(e))))] +
       (if DebugVisible(SetsRunning(e), dsRunning, dsPaused) then [Item(DebugId, Segmented(DebugSegments(dsPaused)))] else []))
  {
    RenderedDefault(SetsRunning(e), dsRunning, dsPaused);
  }

  /** A build starts with no debug session: stop glyph, and the debug control
      appears anyway, because IsRunning alone makes it visible. */
  lemma BuildStartedScenario()
    ensures Shown(Replay(Initial, [WorkspaceItemOpened, StartBuild]), false, false) ==
      [ Item(BuildId, Button(RecordStopTemplate)),
        Item(DebugId, Segmented([ Segment(PauseTemplate, true), Segment(StepOverIcon, false),
                                  Segment(StepOutIcon, false), Segment(StepIntoIcon, false) ])) ]
  {
    ReplayLast(Initial, [WorkspaceItemOpened, StartBuild]);
    ShownAfterEvent(Initial, StartBuild, false, false);
  }

  /** A debug session pauses: the toggle shows play and the step segments are enabled. */
  lemma DebugPausedScenario()
    ensures Shown(Replay(Initial, [DebugSessionStarted, Paused]), false, true) ==
      [ Item(BuildId, Button(RecordStopTemplate)),
        Item(DebugId, Segmented([ Segment(PlayTemplate, true), Segment(StepOverIcon, true),
                                  Segment(StepOutIcon, true), Segment(StepIntoIcon, true) ])) ]
  {
    ReplayLast(Initial, [DebugSessionStarted, Paused]);
    ShownAfterEvent(Initial, Paused, false, true);
  }

  /** The session resumes: the toggle shows pause and the step segments are disabled. */
  lemma DebugResumedScenario()
    ensures Shown(Replay(Initial, [DebugSessionStarted, Paused, Resumed]), true, false) ==
      [ Item(BuildId, Button(RecordStopTemplate)),
        Item(DebugId, Segmented([ Segment(PauseTemplate, true), Segment(StepOverIcon, false),
                                  Segment(StepOutIcon, false), Segment(StepIntoIcon, false) ])) ]
  {
    ReplayLast(Initial, [DebugSessionStarted, Paused, Resumed]);
    ShownAfterEvent(Initial, Resumed, true, false);
  }

  /** A workspace item is opened: the bar shows only the play button. */
  lemma WorkspaceOpenedScenario()
    ensures Shown(Replay(Initial, [WorkspaceItemOpened]), false, false) == [Item(BuildId, Button(PlayTemplate))]
  {
    ShownAfterEvent(Initial, WorkspaceItemOpened, false, false);
  }

  /** Closing a workspace item leaves nothing on the window, whatever came before. */
  lemma WorkspaceClosedScenario(events: seq<Event>, dsRunning: bool, dsPaused: bool)
    ensures Shown(Replay(Initial, events + [WorkspaceItemClosed]), dsRunning, dsPaused) == []
  {
    ReplayLast(Initial, events + [WorkspaceItemClosed]);
  }

  /** The session stops and the debugger reports nothing: play glyph, no debug control. */
  lemma DebugStoppedScenario()
    ensures Shown(Replay(Initial, [DebugSessionStarted, Paused, Resumed, Stopped]), false, false) ==
      [Item(BuildId, Button(PlayTemplate))]
  {
    ReplayLast(Initial, [DebugSessionStarted, Paused, Resumed, Stopped]);
    ShownAfterEvent(Initial, Stopped, false, false);
  }

  /** A touch bar as the handler builds it: its delegate is the handler's
      delegate and it asks for these identifiers. */
  class TouchBar {
    const defaultItemIdentifiers: seq<string>

    constructor (ids: seq<string>)
      ensures defaultItemIdentifiers == ids
    {
      defaultItemIdentifiers := ids;
    }
  }

  /**
   * The startup handler together with the one flag of its delegate and the
   * touch bar of the window it drives.
   */
  class StartupHandler {
    /** The delegate's IsRunning flag. */
    var isRunning: bool
    /** The touch bar installed on the window, null when none is. */
    var installed: TouchBar?
    /** How many times Run has attached the eight handlers. */
    var subscriptions: nat

    function State(): ProjectorState
      reads this
    {
      ProjectorState(isRunning, if installed == null then None else Some(installed.defaultItemIdentifiers))
    }

    predicate BarPresent()
      reads this
    {
      installed != null
    }

    constructor ()
      ensures State() == Initial && !BarPresent()
      ensures subscriptions == 0
    {
      isRunning := false;
      installed := null;
      subscriptions := 0;
    }

    /** A new bar asking for the delegate's default identifiers. */
    method MakeTouchBar() returns (bar: TouchBar)
      ensures fresh(bar)
      ensures bar.defaultItemIdentifiers == DefaultIdentifiers
    {
      bar := new TouchBar(DefaultIdentifiers);
    }

    /**
     * Run: inert without touch-bar support or without a window; otherwise it
     * builds a bar, drops it without installing it, and attaches the handlers.
     */
    method Run(supportsTouchBar: bool, hasWindow: bool)
      modifies this
      ensures State() == old(State()) && installed == old(installed)
      ensures subscriptions == if supportsTouchBar && hasWindow then old(subscriptions) + 1 else old(subscriptions)
      ensures !(supportsTouchBar && hasWindow) ==> unchanged(this)
    {
      if !supportsTouchBar {
        return;
      }
      if !hasWindow {
        return;
      }
      var unused := MakeTouchBar();
      subscriptions := subscriptions + 1;
    }

    method OnResumed()
      modifies this
      ensures State() == Step(old(State()), Resumed)
      ensures installed != null && fresh(installed) && subscriptions == old(subscriptions)
    {
      isRunning := true;
      installed := MakeTouchBar();
    }

    method OnPaused()
      modifies this
      ensures State() == Step(old(State()), Paused)
      ensures installed != null && fresh(installed) && subscriptions == old(subscriptions)
    {
      isRunning := true;
      installed := MakeTouchBar();
    }

    method OnDebugSessionStarted()
      modifies this
      ensures State() == Step(old(State()), DebugSessionStarted)
      ensures installed != null && fresh(installed) && subscriptions == old(subscriptions)
    {
      isRunning := true;
      installed := MakeTouchBar();
    }

    method OnStopped()
      modifies this
      ensures State() == Step(old(State()), Stopped)
      ensures installed != null && fresh(installed) && subscriptions == old(subscriptions)
    {
      isRunning := false;
      installed := MakeTouchBar();
    }

    method OnSolutionClosed()
      modifies this
      ensures State() == Step(old(State()), WorkspaceItemClosed)
      ensures installed == null && subscriptions == old(subscriptions)
    {
      isRunning := false;
      installed := null;
    }

    method OnSolutionOpened()
      modifies this
      ensures State() == Step(old(State()), WorkspaceItemOpened)
      ensures installed != null && fresh(installed) && subscriptions == old(subscriptions)
    {
      isRunning := false;
      installed := MakeTouchBar();
    }

    method OnEndBuild()
      modifies this
      ensures State() == Step(old(State()), EndBuild)
      ensures installed != null && fresh(installed) && subscriptions == old(subscriptions)
    {
      isRunning := false;
      installed := MakeTouchBar();
    }

    method OnStartBuild()
      modifies this
      ensures State() == Step(old(State()), StartBuild)
      ensures installed != null && fresh(installed) && subscriptions == old(subscriptions)
    {
      isRunning := true;
      installed := MakeTouchBar();
    }

    /** The handler attached to an event. */
    method Handle(e: Event)
      modifies this
      ensures State() == Step(old(State()), e)
      ensures e != WorkspaceItemClosed ==> installed != null && fresh(installed)
      ensures subscriptions == old(subscriptions)
    {
      match e {
        case WorkspaceItemOpened => OnSolutionOpened();
        case WorkspaceItemClosed => OnSolutionClosed();
        case StartBuild => OnStartBuild();
        case EndBuild => OnEndBuild();
        case DebugSessionStarted => OnDebugSessionStarted();
        case Paused => OnPaused();
        case Resumed => OnResumed();
        case Stopped => OnStopped();
      }
    }

    /**
     * The IDE raising an event: the attached handler runs once per
     * subscription, and not at all before Run has attached it.
     */
    method Deliver(e: Event)
      modifies this
      ensures subscriptions == old(subscriptions)
      ensures State() == if old(subscriptions) == 0 then old(State()) else Step(old(State()), e)
    {
      var k := 0;
      while k < subscriptions
        invariant 0 <= k <= subscriptions == old(subscriptions)
        invariant State() == if k == 0 then old(State()) else Step(old(State()), e)
      {
        StepIdempotent(old(State()), e);
        Handle(e);
        k := k + 1;
      }
    }
  }
}
