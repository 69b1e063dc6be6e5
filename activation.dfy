/**
 * The activation handlers of the project touch-bar delegate: what a press of
 * the build button or a selection in the debug control asks the IDE to do.
 *
 * The IDE's answers (is a debug session running or paused, which build target
 * and which solution are selected) are gathered in an Environment record, and
 * the handlers return the request they would make as an Intent instead of
 * calling the debugger or the project operations.
 */
module Activation {
  import opened Wrappers
  import ItemBuilder

  /** A project or solution the IDE can build, run or debug. */
  datatype BuildTarget = BuildTarget(name: string)

  /** What the handlers query from the IDE at the moment of the press. */
  datatype Environment = Environment(
    dsRunning: bool,
    dsPaused: bool,
    selectedBuildTarget: Option<BuildTarget>,
    selectedSolution: Option<BuildTarget>)

  /** The request a handler makes to the debugger or the project operations. */
  datatype Intent =
    | NoOp
    | Stop
    | Debug(target: BuildTarget)
    | Resume
    | Pause
    | StepOver
    | StepOut
    | StepInto

  /** The target to run: the selected solution if there is one, else the selected build target. */
  function GetRunTarget(env: Environment): (t: Option<BuildTarget>)
    ensures t.Some? <==> env.selectedSolution.Some? || env.selectedBuildTarget.Some?
    ensures env.selectedSolution.Some? ==> t == env.selectedSolution
    ensures env.selectedSolution.None? ==> t == env.selectedBuildTarget
  {
    match env.selectedSolution
    case Some(_) => env.selectedSolution
    case None => env.selectedBuildTarget
  }

  /** A debug session is running and is not paused. */
  predicate SessionActive(env: Environment)
  {
    env.dsRunning && !env.dsPaused
  }

  /**
   * Build_Activated: nothing without a selected build target; stop a running,
   * unpaused session; otherwise debug the run target. The `None` arm is the
   * source's `target != null` test failing, which cannot happen once a build
   * target is selected (see RunTargetPresentAfterGuard).
   */
  function BuildActivated(env: Environment): (i: Intent)
    ensures i == NoOp <==> env.selectedBuildTarget.None?
    ensures i == Stop <==> env.selectedBuildTarget.Some? && SessionActive(env)
    ensures i.Debug? <==> env.selectedBuildTarget.Some? && !SessionActive(env)
    ensures i.Debug? && env.selectedSolution.Some? ==> i.target == env.selectedSolution.value
    ensures i.Debug? && env.selectedSolution.None? ==> i.target == env.selectedBuildTarget.value
  {
    if env.selectedBuildTarget.None? then NoOp
    else if env.dsRunning && !env.dsPaused then Stop
    else
      match GetRunTarget(env)
      case Some(target) => Debug(target)
      case None => NoOp
  }

  /** Past the build-target guard, the run target is never missing, so the else
      branch of Build_Activated always asks to debug. */
  lemma RunTargetPresentAfterGuard(env: Environment)
    requires env.selectedBuildTarget.Some?
    ensures GetRunTarget(env).Some?
    ensures !SessionActive(env) ==> BuildActivated(env) == Debug(GetRunTarget(env).value)
  {
  }

  /** What Debug_Activated asks for, and whether it deselects the segment afterwards. */
  datatype Activation = Activation(intent: Intent, deselect: bool)

  /**
   * Debug_Activated as a decision table over the selected segment index.
   * Segment 0 without a selected build target returns before deselecting.
   */
  function DebugDecision(segment: int, env: Environment): (a: Activation)
    ensures a.deselect <==> !(segment == 0 && env.selectedBuildTarget.None?)
    ensures a.intent == NoOp <==> segment < 0 || 3 < segment || (segment == 0 && env.selectedBuildTarget.None?)
    ensures a.intent == Resume <==> segment == 0 && env.selectedBuildTarget.Some? && env.dsPaused
    ensures a.intent == Pause <==> segment == 0 && env.selectedBuildTarget.Some? && !env.dsPaused
    ensures a.intent == StepOver <==> segment == 1
    ensures a.intent == StepOut <==> segment == 2
    ensures a.intent == StepInto <==> segment == 3
    ensures !a.intent.Stop? && !a.intent.Debug?
  {
    match segment
    case 0 =>
      if env.selectedBuildTarget.None? then Activation(NoOp, false)
      else Activation(if env.dsPaused then Resume else Pause, true)
    case 1 => Activation(StepOver, true)
    case 2 => Activation(StepOut, true)
    case 3 => Activation(StepInto, true)
    case _ => Activation(NoOp, true)
  }

  /**
   * The selection state of a segmented control with select-any tracking.
   * The host selects a segment and records its index in selectedSegment
   * before it calls the activation handler.
   *
   * This is the control's mutable selection only; its glyphs and enabled
   * flags are the immutable descriptor ItemBuilder.Segmented, fixed when the
   * item is made. Debug_Activated reads and changes only the selection, and
   * its decision does not depend on the number of segments, so the two are
   * kept apart. The debug control is made with ItemBuilder.DebugSegmentCount
   * segments (see NewDebugControl).
   */
  class SegmentedControl {
    var selected: seq<bool>
    var selectedSegment: int

    /** A control with `count` segments, none selected. */
    constructor (count: nat)
      ensures selected == seq(count, _ => false)
      ensures selectedSegment == -1
    {
      selected := seq(count, _ => false);
      selectedSegment := -1;
    }

    /** Sets the selection of one segment; an index outside the control changes nothing. */
    method SetSelected(value: bool, segment: int)
      modifies this
      ensures selectedSegment == old(selectedSegment)
      ensures selected == if 0 <= segment < |old(selected)| then old(selected)[segment := value] else old(selected)
    {
      if 0 <= segment < |selected| {
        selected := selected[segment := value];
      }
    }
  }

  /** The selection state of a newly made debug control: four segments, none selected. */
  method NewDebugControl() returns (control: SegmentedControl)
    ensures fresh(control)
    ensures |control.selected| == ItemBuilder.DebugSegmentCount
    ensures forall i :: 0 <= i < |control.selected| ==> !control.selected[i]
    ensures control.selectedSegment == -1
  {
    control := new SegmentedControl(ItemBuilder.DebugSegmentCount);
  }

  /**
   * Debug_Activated on the control that fired it: the intent of the selected
   * segment, after which the segment is deselected unless the handler returned
   * early.
   */
  method DebugActivated(control: SegmentedControl, env: Environment) returns (intent: Intent)
    modifies control
    ensures intent == DebugDecision(old(control.selectedSegment), env).intent
    ensures control.selectedSegment == old(control.selectedSegment)
    ensures control.selected ==
      if DebugDecision(old(control.selectedSegment), env).deselect
      && 0 <= old(control.selectedSegment) < |old(control.selected)|
      then old(control.selected)[old(control.selectedSegment) := false]
      else old(control.selected)
  {
    match control.selectedSegment {
      case 0 =>
        if env.selectedBuildTarget.None? {
          return NoOp;
        }
        if env.dsPaused {
          intent := Resume;
        } else {
          intent := Pause;
        }
      case 1 =>
        intent := StepOver;
      case 2 =>
        intent := StepOut;
      case 3 =>
        intent := StepInto;
      case _ =>
        intent := NoOp;
    }
    control.SetSelected(false, control.selectedSegment);
  }
}
