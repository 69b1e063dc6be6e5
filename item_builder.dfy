/**
 * The item factory of the project touch-bar delegate
 * (MonoDevelopProjectTouchBarDelegate in MonoDevelop.TouchBar/StartupHandler.cs).
 *
 * The native widgets are replaced by plain descriptors: a button or a segmented
 * control, each showing glyph tags instead of images. The delegate's own
 * IsRunning flag and the debugger's IsRunning / IsPaused queries are inputs.
 */
module ItemBuilder {
  import opened Wrappers

  /** Identifier of the build/stop button. */
  const BuildId: string := "md.build"
  /** Identifier of the debug control cluster. */
  const DebugId: string := "md.debug"

  /** The identifiers every bar built by the startup handler asks for, in order. */
  const DefaultIdentifiers: seq<string> := [BuildId, DebugId]

  /** The images an item can show. The templates are system touch-bar images;
      the step icons are the IDE's "md-step-*-debug" icons. */
  datatype Glyph =
    | PlayTemplate
    | PauseTemplate
    | RecordStopTemplate
    | StepOverIcon
    | StepOutIcon
    | StepIntoIcon

  /** The icons of segments 1 to 3, loaded once when the delegate is constructed. */
  const StepGlyphs: seq<Glyph> := [StepOverIcon, StepOutIcon, StepIntoIcon]

  /** Number of segments of the debug control. */
  const DebugSegmentCount: nat := 4

  /** One segment of a segmented control. */
  datatype Segment = Segment(glyph: Glyph, enabled: bool)

  /** The view of an item. A button's press is handled by Build_Activated and a
      segmented control's selection (select-any tracking) by Debug_Activated. */
  datatype View =
    | Button(glyph: Glyph)
    | Segmented(segments: seq<Segment>)

  datatype Item = Item(identifier: string, view: View)

  /** The glyph of the build button: stop while a run is in flight, play otherwise. */
  function BuildPlayImage(isRunning: bool): (g: Glyph)
    ensures g == PlayTemplate || g == RecordStopTemplate
    ensures g == RecordStopTemplate <==> isRunning
  {
    if isRunning then RecordStopTemplate else PlayTemplate
  }

  /** The glyph of the toggle segment: play (resume) while paused, pause otherwise. */
  function BuildDebugImage(dsPaused: bool): (g: Glyph)
    ensures g == PlayTemplate || g == PauseTemplate
    ensures g == PlayTemplate <==> dsPaused
  {
    if dsPaused then PlayTemplate else PauseTemplate
  }

  /** The images handed to the segmented control: the toggle glyph, then the step icons. */
  function DebugImages(dsPaused: bool): seq<Glyph>
  {
    [BuildDebugImage(dsPaused)] + StepGlyphs
  }

  /** The segments of a freshly made debug control once the step segments have
      been enabled or disabled according to the pause state. */
  function DebugSegments(dsPaused: bool): (segs: seq<Segment>)
    ensures |segs| == DebugSegmentCount
    ensures forall i :: 0 <= i < |segs| ==> segs[i].glyph == DebugImages(dsPaused)[i]
    ensures segs[0].enabled
    ensures forall i :: 1 <= i < |segs| ==> (segs[i].enabled <==> dsPaused)
  {
    [ Segment(BuildDebugImage(dsPaused), true),
      Segment(StepOverIcon, dsPaused),
      Segment(StepOutIcon, dsPaused),
      Segment(StepIntoIcon, dsPaused) ]
  }

  /** Whether the debug cluster is shown: something is running or paused. */
  predicate DebugVisible(isRunning: bool, dsRunning: bool, dsPaused: bool)
  {
    isRunning || dsRunning || dsPaused
  }

  /** The item the delegate hands to the bar for an identifier, or None. */
  function ItemFor(identifier: string, isRunning: bool, dsRunning: bool, dsPaused: bool): (r: Option<Item>)
    ensures r.Some? <==> identifier == BuildId || (identifier == DebugId && DebugVisible(isRunning, dsRunning, dsPaused))
    ensures r.Some? ==> r.value.identifier == identifier
    ensures identifier == BuildId ==> r == Some(Item(BuildId, Button(BuildPlayImage(isRunning))))
    ensures r.Some? && identifier == DebugId ==> r.value.view == Segmented(DebugSegments(dsPaused))
  {
    if identifier == BuildId then
      Some(Item(identifier, Button(BuildPlayImage(isRunning))))
    else if identifier == DebugId then
      if !isRunning && !dsRunning && !dsPaused then None
      else Some(Item(identifier, Segmented(DebugSegments(dsPaused))))
    else
      None
  }

  /**
   * MakeItem as the source runs it: the debug control is created with every
   * segment enabled, then a loop sets the enabled state of segments 1 to 3.
   */
  method MakeItem(identifier: string, isRunning: bool, dsRunning: bool, dsPaused: bool)
    returns (item: Option<Item>)
    ensures item == ItemFor(identifier, isRunning, dsRunning, dsPaused)
  {
    if identifier == BuildId {
      return Some(Item(identifier, Button(BuildPlayImage(isRunning))));
    }
    if identifier == DebugId {
      if !isRunning && !dsRunning && !dsPaused {
        return None;
      }
      var images := DebugImages(dsPaused);
      var control := new Segment[|images|](k requires 0 <= k < |images| => Segment(images[k], true));
      for i := 1 to control.Length
        invariant forall k :: 0 <= k < control.Length ==> control[k].glyph == images[k]
        invariant control[0].enabled
        invariant forall k :: 1 <= k < i ==> control[k].enabled == dsPaused
      {
        control[i] := control[i].(enabled := dsPaused);
      }
      assert control[..] == DebugSegments(dsPaused);
      return Some(Item(identifier, Segmented(control[..])));
    }
    return None;
  }
}
