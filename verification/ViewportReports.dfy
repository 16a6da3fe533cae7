/**
 How the view learns which frame is on the surface. The renderer samples the viewport, reports it through a cache of
 the last report, clears drawRequested and draws, without holding stateLock; the UI thread changes the viewport or the
 zoom, and handles the posted reports. The steps of the two threads interleave freely.
 */
module ViewportReports {
  import opened Options

  /** What a frame shows: the version of viewport and zoom it was drawn for, and the position of the pan window. */
  datatype Report = Report(version: nat, pan: nat)

  /** The renderer thread in rendererRedrawLocked. */
  datatype RendererPc = Waiting | Sampled(sample: Report) | Reported(report: Report)

  /** The UI thread: in updateViewport the input fields change before setViewport is called. */
  datatype UiPc = Free | InputChanged

  /** `cache` is the last report that was sent since the last change, `posted` the reports not handled yet, `drawn` the
      frame on the surface. `late` is a history variable: since the renderer last took a sample, viewport or zoom
      changed before it cleared drawRequested. */
  datatype State = State(
    version: nat, requested: bool, renderer: RendererPc, cache: Option<Report>, posted: seq<Report>,
    drawn: Report, ui: UiPc, input: Report, late: bool)

  datatype Action =
    | ChangeInput(input: Option<Report>)               // LorieView.java:739-744, where the zoom is 100
    | Change                                           // rendererSetViewport or rendererSetZoom
    | Damage                                           // the server sets drawRequested
    | HandlePosted                                     // setRendererViewport
    | Sample(pan: nat)                                 // renderer.c:638-703
    | SendReport                                       // renderer.c:705
    | ClearAndDraw                                     // renderer.c:708-745

  const Initial := State(0, false, Waiting, None, [], Report(0, 0), Free, Report(0, 0), false)

  function Next(s: State, a: Action): Option<State> {
    match a
    case ChangeInput(input) =>
      if s.ui != Free then None
      else Some(s.(ui := InputChanged, input := if input.Some? then input.value else s.input))
    case Change =>
      Some(s.(version := s.version + 1, requested := true, cache := None, ui := Free,
              late := s.late || s.renderer != Waiting))
    case Damage => Some(s.(requested := true))
    case HandlePosted =>
      if s.ui != Free || s.posted == [] then None
      else Some(s.(input := s.posted[0], posted := s.posted[1..]))
    case Sample(pan) =>
      if s.renderer != Waiting then None
      else Some(s.(renderer := Sampled(Report(s.version, pan)), late := false))
    case SendReport =>
      if !s.renderer.Sampled? then None
      else
        var r := s.renderer.sample;
        var t := s.(renderer := Reported(r));
        Some(if s.cache == Some(r) then t else t.(posted := s.posted + [r], cache := Some(r)))
    case ClearAndDraw =>
      if !s.renderer.Reported? then None
      else Some(s.(renderer := Waiting, requested := false, drawn := s.renderer.report))
  }

  /** The states of a run: it starts in Initial and every step is one of the actions. */
  ghost predicate IsRun(run: seq<State>, acts: seq<Action>) {
    && |run| == |acts| + 1 && run[0] == Initial
    && forall i :: 0 <= i < |acts| ==> Next(run[i], acts[i]) == Some(run[i + 1])
  }

  /** The input fields once the posted reports are handled. */
  function Settled(s: State): Report { if s.posted == [] then s.input else s.posted[|s.posted| - 1] }

  /** What the renderer draws next, or drew last. */
  function Current(s: State): Report {
    match s.renderer
    case Waiting => s.drawn
    case Sampled(r) => r
    case Reported(r) => r
  }

  predicate Inv(s: State) {
    && (s.cache.Some? && s.ui.Free? ==> Settled(s) == s.cache.value)
    && (s.cache.Some? && s.posted != [] ==> Settled(s) == s.cache.value)
    && (s.cache.Some? && s.renderer.Reported? ==> s.cache.value == s.renderer.report)
    && (s.cache.Some? && !s.renderer.Reported? ==> s.cache.value == s.drawn)
    && (s.late ==> Current(s).version < s.version)
    && (!s.late && s.renderer != Waiting ==> Current(s).version == s.version)
    && (!s.late && s.renderer == Waiting && !s.requested ==> s.drawn.version == s.version)
    && (!s.late && s.renderer.Reported? ==> s.cache == Some(s.renderer.report))
    && (!s.late && s.renderer == Waiting && !s.requested && s.version > 0 ==> s.cache == Some(s.drawn))
  }

  lemma StepKeepsInv(s: State, a: Action)
    requires Inv(s) && Next(s, a).Some?
    ensures Inv(Next(s, a).value)
  {
    match a
    case ChangeInput(_) => case Change => case Damage => case HandlePosted =>
    case Sample(_) => case SendReport => case ClearAndDraw =>
  }

  lemma {:induction false} ReachableInv(run: seq<State>, acts: seq<Action>)
    requires IsRun(run, acts)
    ensures Inv(run[|run| - 1])
  {
    if acts != [] {
      var n := |acts| - 1;
      var before := run[..n + 1];
      assert IsRun(before, acts[..n]);
      ReachableInv(before, acts[..n]);
      assert before[|before| - 1] == run[n];
      assert Next(run[n], acts[n]) == Some(run[n + 1]);
      StepKeepsInv(run[n], acts[n]);
    }
  }

  predicate Quiet(s: State) { s.renderer.Waiting? && s.ui.Free? && s.posted == [] && !s.requested }

  /** When both threads are idle and nothing is requested, the frame on the surface shows the current viewport and zoom
      if and only if the last change did not fall between sampling and clearing the request; and then, once there was a
      change at all, touches are translated for exactly the frame on the surface, as they are whenever no change came
      after the last report. */
  lemma FrameCurrentIffNotLate(run: seq<State>, acts: seq<Action>)
    requires IsRun(run, acts) && Quiet(run[|run| - 1])
    ensures var s := run[|run| - 1];
      && (s.drawn.version == s.version <==> !s.late)
      && (!s.late && s.version > 0 ==> s.input == s.drawn)
      && (s.cache.Some? ==> s.input == s.drawn)
  {
    ReachableInv(run, acts);
  }

  /** A viewport change after the report and before the request is cleared: the change is not drawn, no redraw is
      requested, and touches are translated for a frame that is not on the surface. */
  lemma ChangeCanBeLost() returns (run: seq<State>, acts: seq<Action>)
    ensures IsRun(run, acts) && Quiet(run[|run| - 1])
    ensures var s := run[|run| - 1]; s.drawn.version != s.version && s.input != s.drawn
  {
    acts := [Sample(0), SendReport, HandlePosted, ChangeInput(Some(Report(1, 0))), Change, ClearAndDraw];
    var r := Report(0, 0);
    var s1 := Initial.(renderer := Sampled(r));
    var s2 := s1.(renderer := Reported(r), posted := [r], cache := Some(r));
    var s3 := s2.(posted := []);
    var s4 := s3.(ui := InputChanged, input := Report(1, 0));
    var s5 := s4.(version := 1, requested := true, cache := None, ui := Free, late := true);
    var s6 := s5.(renderer := Waiting, requested := false);
    run := [Initial, s1, s2, s3, s4, s5, s6];
    assert s1.posted + [r] == [r] && s2.posted[1..] == [];
  }
}
