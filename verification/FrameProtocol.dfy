/**
 The frame protocol between the X server and the renderer: the flags of
 `lorie_shared_server_state`, the root-window lock and the cursor lock, as a
 step system over the atomic reads and writes of four threads (server, cursor
 mover, renderer, activity).  Memory is sequentially consistent.

 Contents and cursor data are version numbers: a write makes a new version, so
 "the screen shows version v" can be compared with "version v is current".
 */
module FrameProtocol {
  import opened Options

  datatype Owner = Free | Server | Renderer

  /** Where the server thread stands.
      loriePrepareAccess .. lorieFinishAccess: WriteLocked, Wrote, Damaged.
      lorieRedraw: TickSurface, TickDamage, TickEmpty, TickRequest, TickSignal.
      lorieActivityConnected: ConnectRequest. */
  datatype ServerPc =
    | Idle | WriteLocked | Wrote | Damaged
    | TickSurface | TickDamage | TickEmpty | TickRequest | TickSignal
    | ConnectRequest

  /** lorieMoveCursor (MoveX, MoveY, MoveFlag), lorieSetCursor (Shape*). */
  datatype MoverPc =
    | Resting | ShapeWrite | ShapeFlag | ShapeUnlock | MoveX | MoveY | MoveFlag

  /** rendererThread (Top, See*), rendererRefreshContext (Refresh*),
      rendererRedrawLocked (the rest, in source order). */
  datatype RendererPc =
    | Top
    | RefreshUpdated(valid: bool) | RefreshRequested(valid: bool) | RefreshSurface(valid: bool)
    | SeeSurface | SeeWait | SeeFlags
    | FindBuffer | PanX | PanY | TakeLock | ClearRequest | Sample
    | SeeUpdated | TakeCursorLock | ClearUpdated | UploadShape
    | ClearMoved | DrawX | DrawY | RaiseWait | DropLock

  datatype State = State(
    // shared flags
    drawRequested: bool, waitForNextFrame: bool, surfaceAvailable: bool,
    cursorMoved: bool, cursorUpdated: bool,
    // locks
    rootLock: Owner, cursorLock: Owner,
    // server side data
    damage: bool, content: nat, shape: nat, cursorX: nat, cursorY: nat,
    // what the renderer last used
    shown: nat, shownShape: nat, shownX: nat, shownY: nat, panX: nat, panY: nat,
    // program counters
    server: ServerPc, mover: MoverPc, renderer: RendererPc,
    // history
    ticks: nat, frames: nat,
    blanked: bool,   // an unusable window cleared the flags and no usable one came since
    late: bool       // a coordinate was written after the pan code had read it and before `moved` was cleared
  )

  const Initial := State(
    false, false, false, false, false,
    Free, Free,
    false, 0, 0, 0, 0,
    0, 0, 0, 0, 0, 0,
    Idle, Resting, Top,
    0, 0, false, false)

  datatype Action =
    | BeginWrite | BeginTick | BeginConnect | ServerStep(alive: bool)
    | BeginMove | BeginShape | MoverStep
    | BeginRefresh(valid: bool)   // rendererRefreshContext gets as far as its last assignments
    | FailRefresh                 // it returns because no surface can be created
    | LoseSurface                 // it returns without a window, or because the context cannot be made current
    | BeginCheck | RendererStep(ok: bool)
    | RequestDraw                 // rendererSetViewport, rendererSetZoom

  function Next(s: State, a: Action): Option<State> {
    match a
    case BeginWrite =>
      if s.server.Idle? && s.rootLock.Free?
      then Some(s.(server := WriteLocked, rootLock := Server)) else None
    case BeginTick =>
      if s.server.Idle?
      then Some(s.(server := TickSurface, waitForNextFrame := false, ticks := s.ticks + 1)) else None
    case BeginConnect =>
      if s.server.Idle? then Some(s.(server := ConnectRequest, cursorUpdated := true)) else None
    case ServerStep(alive) => NextServer(s, alive)
    case BeginMove => if s.mover.Resting? then Some(s.(mover := MoveX)) else None
    case BeginShape =>
      if s.mover.Resting? && s.cursorLock.Free?
      then Some(s.(mover := ShapeWrite, cursorLock := Server)) else None
    case MoverStep => NextMover(s)
    case BeginRefresh(valid) =>
      if s.renderer.Top? then Some(s.(renderer := RefreshUpdated(valid))) else None
    case FailRefresh => if s.renderer.Top? then Some(s) else None
    case LoseSurface => if s.renderer.Top? then Some(s.(surfaceAvailable := false)) else None
    case BeginCheck => if s.renderer.Top? then Some(s.(renderer := SeeSurface)) else None
    case RendererStep(ok) => NextRenderer(s, ok)
    case RequestDraw => Some(s.(drawRequested := true))
  }

  function NextServer(s: State, alive: bool): Option<State> {
    match s.server
    case Idle => None
    case WriteLocked => Some(s.(server := Wrote, content := s.content + 1))
    case Wrote => Some(s.(server := Damaged, damage := true))
    case Damaged => Some(s.(server := Idle, rootLock := Free))
    case TickSurface => Some(s.(server := if alive && s.surfaceAvailable then TickDamage else Idle))
    case TickDamage => Some(s.(server := if s.damage then TickEmpty else TickSignal))
    case TickEmpty => Some(s.(server := TickRequest, damage := false))
    case TickRequest => Some(s.(server := TickSignal, drawRequested := true))
    case TickSignal => Some(s.(server := Idle))
    case ConnectRequest => Some(s.(server := Idle, drawRequested := true))
  }

  function NextMover(s: State): Option<State> {
    match s.mover
    case Resting => None
    case ShapeWrite => Some(s.(mover := ShapeFlag, shape := s.shape + 1))
    case ShapeFlag => Some(s.(mover := ShapeUnlock, cursorUpdated := true))
    case ShapeUnlock => Some(s.(mover := MoveX, cursorLock := Free))
    case MoveX => Some(s.(mover := MoveY, cursorX := s.cursorX + 1, late := s.late || PanXRead(s)))
    case MoveY => Some(s.(mover := MoveFlag, cursorY := s.cursorY + 1, late := s.late || PanYRead(s)))
    case MoveFlag => Some(s.(mover := Resting, cursorMoved := true))
  }

  function NextRenderer(s: State, ok: bool): Option<State> {
    match s.renderer
    case Top => None
    case RefreshUpdated(v) =>
      Some(s.(renderer := RefreshRequested(v), cursorUpdated := v, blanked := s.blanked || !v))
    case RefreshRequested(v) => Some(s.(renderer := RefreshSurface(v), drawRequested := v))
    case RefreshSurface(v) => Some(s.(renderer := Top, surfaceAvailable := v, blanked := !v))
    case SeeSurface => Some(s.(renderer := if s.surfaceAvailable then SeeWait else Top))
    case SeeWait => Some(s.(renderer := if s.waitForNextFrame then Top else SeeFlags))
    case SeeFlags =>
      Some(s.(renderer := if s.drawRequested || s.cursorMoved || s.cursorUpdated then FindBuffer else Top))
    case FindBuffer => Some(s.(renderer := if ok then PanX else Top))   // no buffer, or one of the wrong size
    case PanX => Some(s.(renderer := PanY, panX := s.cursorX, late := false))
    case PanY => Some(s.(renderer := TakeLock, panY := s.cursorY))
    case TakeLock =>
      if s.rootLock.Free? then Some(s.(renderer := ClearRequest, rootLock := Renderer)) else None
    case ClearRequest => Some(s.(renderer := Sample, drawRequested := false))
    case Sample => Some(s.(renderer := SeeUpdated, shown := s.content))
    case SeeUpdated => Some(s.(renderer := if s.cursorUpdated then TakeCursorLock else ClearMoved))
    case TakeCursorLock =>
      if s.cursorLock.Free? then Some(s.(renderer := ClearUpdated, cursorLock := Renderer)) else None
    case ClearUpdated => Some(s.(renderer := UploadShape, cursorUpdated := false))
    case UploadShape => Some(s.(renderer := ClearMoved, shownShape := s.shape, cursorLock := Free))
    case ClearMoved => Some(s.(renderer := DrawX, cursorMoved := false))
    case DrawX => Some(s.(renderer := DrawY, shownX := s.cursorX))
    case DrawY => Some(s.(renderer := RaiseWait, shownY := s.cursorY))
    case RaiseWait => Some(s.(renderer := DropLock, waitForNextFrame := true, frames := s.frames + 1))
    case DropLock => Some(s.(renderer := Top, rootLock := Free))
  }

  /** The renderer has read the pan coordinate and has not yet cleared `cursor.moved`. */
  predicate PanXRead(s: State) { s.renderer.PanY? || PanYRead(s) }

  predicate PanYRead(s: State) {
    || s.renderer.TakeLock? || s.renderer.ClearRequest? || s.renderer.Sample? || s.renderer.SeeUpdated?
    || s.renderer.TakeCursorLock? || s.renderer.ClearUpdated? || s.renderer.UploadShape? || s.renderer.ClearMoved?
  }

  /** The renderer is drawing: it passed the `waitForNextFrame` test and has not raised the flag. */
  predicate Drawing(s: State) {
    || s.renderer.SeeFlags? || s.renderer.FindBuffer? || s.renderer.PanX?
    || s.renderer.DrawX? || s.renderer.DrawY? || s.renderer.RaiseWait?
    || PanXRead(s)
  }

  predicate Locked(s: State) {
    s.renderer.ClearRequest? || s.renderer.Sample? || Sampled(s)
  }

  /** The frame being drawn has sampled the root window and still holds the root lock. */
  predicate Sampled(s: State) {
    || s.renderer.SeeUpdated? || s.renderer.TakeCursorLock? || s.renderer.ClearUpdated? || s.renderer.UploadShape?
    || s.renderer.ClearMoved? || s.renderer.DrawX? || s.renderer.DrawY? || s.renderer.RaiseWait? || s.renderer.DropLock?
  }

  predicate MoveUnderWay(s: State) { s.mover.MoveY? || s.mover.MoveFlag? }

  // ----- what is guaranteed -----

  /** A root write is shown, or something still pending will make the renderer draw it. */
  predicate RootSafe(s: State) {
    || s.damage                       // the next tick will see it
    || s.drawRequested                // the renderer will see it
    || s.server.Wrote?              // written, damage not yet recorded
    || s.server.TickRequest?        // DamageEmpty done, drawRequested not yet set
    || s.renderer.Sample?           // drawRequested cleared, root not yet sampled
    || s.shown == s.content
  }

  predicate ShapeSafe(s: State) {
    || s.cursorUpdated
    || s.mover.ShapeFlag?
    || s.renderer.UploadShape?
    || s.shownShape == s.shape
  }

  predicate PositionSafe(s: State) {
    || s.cursorMoved
    || MoveUnderWay(s)
    || s.renderer.DrawX?
    || (s.renderer.DrawY? && s.shownX == s.cursorX)
    || (s.shownX == s.cursorX && s.shownY == s.cursorY)
  }

  /** At most one frame per vsync: a frame needs a tick since the previous one. */
  predicate Paced(s: State) {
    && s.frames <= s.ticks + (if s.waitForNextFrame then 1 else 0)
    && (Drawing(s) ==> !s.waitForNextFrame)
  }

  /** The root is not written while a frame is being copied from it. */
  predicate NoTearing(s: State) {
    && (Locked(s) <==> s.rootLock.Renderer?)
    && ((s.server.WriteLocked? || s.server.Wrote? || s.server.Damaged?) <==> s.rootLock.Server?)
    && (Sampled(s) ==> s.shown == s.content)
  }

  predicate CursorLocking(s: State) {
    && ((s.renderer.ClearUpdated? || s.renderer.UploadShape?) <==> s.cursorLock.Renderer?)
    && ((s.mover.ShapeWrite? || s.mover.ShapeFlag? || s.mover.ShapeUnlock?) <==> s.cursorLock.Server?)
  }

  /** `blanked` is confined to the time without a surface. */
  predicate Blanking(s: State) {
    && (s.blanked ==> !s.surfaceAvailable || s.renderer.RefreshRequested? || s.renderer.RefreshSurface?
                      || s.renderer.RefreshUpdated?)
    && (s.renderer == RefreshSurface(true) ==> s.drawRequested)
    && ((s.renderer == RefreshRequested(false) || s.renderer == RefreshSurface(false)) ==> s.blanked)
    && ((s.renderer == RefreshRequested(true) || s.renderer == RefreshSurface(true)) ==> s.cursorUpdated)
  }

  /** `late` says exactly whether the pan window was computed from outdated coordinates. */
  predicate PanTracking(s: State) {
    && s.panX <= s.cursorX && s.panY <= s.cursorY
    && (PanYRead(s) ==> (s.late <==> s.panX < s.cursorX || s.panY < s.cursorY))
    && (s.renderer.PanY? ==> (s.late <==> s.panX < s.cursorX))
    && (!PanXRead(s) && s.late ==> s.panX < s.cursorX || s.panY < s.cursorY)
    && (!PanXRead(s) && !s.late ==>
        s.cursorMoved || MoveUnderWay(s) || (s.panX == s.cursorX && s.panY == s.cursorY))
  }

  predicate Inv(s: State) {
    && (RootSafe(s) || s.blanked)
    && (ShapeSafe(s) || s.blanked)
    && PositionSafe(s)
    && Paced(s)
    && NoTearing(s)
    && CursorLocking(s)
    && Blanking(s)
    && PanTracking(s)
  }

  /** No unusable window has cleared the flags, and none is about to. */
  predicate Usable(s: State) {
    && !s.blanked
    && s.renderer != RefreshUpdated(false) && s.renderer != RefreshRequested(false)
    && s.renderer != RefreshSurface(false)
  }

  predicate Kept(s: State, t: State) { Inv(t) && (Usable(s) ==> Usable(t)) }

  // Each thread keeps the invariant; the cases are spread over several lemmas to keep each one cheap.

  predicate Writing(p: ServerPc) { p.WriteLocked? || p.Wrote? }

  predicate Leaving(p: ServerPc) { p.Damaged? || p.TickSurface? }

  lemma WritingKeepsInv(s: State, alive: bool)
    requires Inv(s) && Writing(s.server)
    ensures NextServer(s, alive).Some? && Kept(s, NextServer(s, alive).value)
  {
    match s.server
    case WriteLocked => case Wrote =>
  }

  lemma LeavingKeepsInv(s: State, alive: bool)
    requires Inv(s) && Leaving(s.server)
    ensures NextServer(s, alive).Some? && Kept(s, NextServer(s, alive).value)
  {
    match s.server
    case Damaged => case TickSurface =>
  }

  predicate Emptying(p: ServerPc) { p.TickDamage? || p.TickEmpty? }

  lemma EmptyingKeepsInv(s: State, alive: bool)
    requires Inv(s) && Emptying(s.server)
    ensures NextServer(s, alive).Some? && Kept(s, NextServer(s, alive).value)
  {
    match s.server
    case TickDamage => case TickEmpty =>
  }

  lemma RequestingKeepsInv(s: State, alive: bool)
    requires Inv(s) && (s.server.TickRequest? || s.server.ConnectRequest? || s.server.TickSignal?)
    ensures NextServer(s, alive).Some? && Kept(s, NextServer(s, alive).value)
  {
    match s.server
    case TickRequest => case ConnectRequest => case TickSignal =>
  }

  predicate Shaping(p: MoverPc) { p.ShapeWrite? || p.ShapeFlag? || p.ShapeUnlock? || p.MoveFlag? }

  lemma ShapingKeepsInv(s: State)
    requires Inv(s) && Shaping(s.mover)
    ensures NextMover(s).Some? && Kept(s, NextMover(s).value)
  {
    match s.mover
    case ShapeWrite => case ShapeFlag => case ShapeUnlock => case MoveFlag =>
  }

  lemma MovingKeepsInv(s: State)
    requires Inv(s) && (s.mover.MoveX? || s.mover.MoveY?)
    ensures NextMover(s).Some? && Kept(s, NextMover(s).value)
  {
    match s.mover
    case MoveX => case MoveY =>
  }

  predicate Refreshing(r: RendererPc) { r.RefreshUpdated? || r.RefreshRequested? || r.RefreshSurface? }

  predicate Choosing(r: RendererPc) { r.Top? || r.SeeSurface? || r.SeeWait? || r.SeeFlags? || r.FindBuffer? }

  predicate Panning(r: RendererPc) { r.PanX? || r.PanY? }

  predicate Preparing(r: RendererPc) { r.TakeLock? || r.ClearRequest? || r.Sample? }

  predicate Updating(r: RendererPc) { r.SeeUpdated? || r.TakeCursorLock? || r.ClearUpdated? || r.UploadShape? }

  predicate DrawingCursor(r: RendererPc) { r.ClearMoved? || r.DrawX? || r.DrawY? }

  predicate Finishing(r: RendererPc) { r.RaiseWait? || r.DropLock? }

  lemma RefreshBeginsKeepsInv(s: State, ok: bool)
    requires Inv(s) && s.renderer.RefreshUpdated?
    ensures NextRenderer(s, ok).Some? && Kept(s, NextRenderer(s, ok).value)
  {}

  lemma RefreshEndsKeepsInv(s: State, ok: bool)
    requires Inv(s) && (s.renderer.RefreshRequested? || s.renderer.RefreshSurface?)
    ensures NextRenderer(s, ok).Some? && Kept(s, NextRenderer(s, ok).value)
  {
    match s.renderer
    case RefreshRequested(v) => case RefreshSurface(v) =>
  }

  lemma TestingKeepsInv(s: State, ok: bool)
    requires Inv(s) && (s.renderer.SeeWait? || s.renderer.SeeFlags?)
    ensures NextRenderer(s, ok).Some? && Kept(s, NextRenderer(s, ok).value)
  {
    match s.renderer
    case SeeWait => case SeeFlags =>
  }

  lemma ChoosingKeepsInv(s: State, ok: bool)
    requires Inv(s) && (s.renderer.SeeSurface? || s.renderer.FindBuffer?)
    ensures NextRenderer(s, ok).Some? && Kept(s, NextRenderer(s, ok).value)
  {
    match s.renderer
    case SeeSurface => case FindBuffer =>
  }

  lemma PanningKeepsInv(s: State, ok: bool)
    requires Inv(s) && Panning(s.renderer)
    ensures NextRenderer(s, ok).Some? && Kept(s, NextRenderer(s, ok).value)
  {
    match s.renderer
    case PanX => case PanY =>
  }

  lemma PreparingKeepsInv(s: State, ok: bool)
    requires Inv(s) && Preparing(s.renderer) && NextRenderer(s, ok).Some?
    ensures Kept(s, NextRenderer(s, ok).value)
  {
    match s.renderer
    case TakeLock => case ClearRequest => case Sample =>
  }

  lemma UpdatingKeepsInv(s: State, ok: bool)
    requires Inv(s) && Updating(s.renderer) && NextRenderer(s, ok).Some?
    ensures Kept(s, NextRenderer(s, ok).value)
  {
    match s.renderer
    case SeeUpdated => case TakeCursorLock => case ClearUpdated => case UploadShape =>
  }

  lemma DrawingCursorKeepsInv(s: State, ok: bool)
    requires Inv(s) && DrawingCursor(s.renderer)
    ensures NextRenderer(s, ok).Some? && Kept(s, NextRenderer(s, ok).value)
  {
    match s.renderer
    case ClearMoved => case DrawX => case DrawY =>
  }

  lemma FinishingKeepsInv(s: State, ok: bool)
    requires Inv(s) && Finishing(s.renderer)
    ensures NextRenderer(s, ok).Some? && Kept(s, NextRenderer(s, ok).value)
  {
    match s.renderer
    case RaiseWait => case DropLock =>
  }

  lemma LockingKeepsInv(s: State, a: Action)
    requires Inv(s) && (a.BeginWrite? || a.BeginShape?) && Next(s, a).Some?
    ensures Kept(s, Next(s, a).value)
  {
    match a
    case BeginWrite => case BeginShape =>
  }

  lemma RaisingKeepsInv(s: State, a: Action)
    requires Inv(s) && (a.BeginTick? || a.BeginConnect? || a.RequestDraw?) && Next(s, a).Some?
    ensures Kept(s, Next(s, a).value)
  {
    match a
    case BeginTick => case BeginConnect => case RequestDraw =>
  }

  lemma OtherBeginKeepsInv(s: State, a: Action)
    requires Inv(s) && Next(s, a).Some? && (a.BeginMove? || a.LoseSurface? || a.FailRefresh?)
    ensures Kept(s, Next(s, a).value)
  {
    match a
    case BeginMove => case LoseSurface => case FailRefresh =>
  }

  lemma LookingKeepsInv(s: State, a: Action)
    requires Inv(s) && Next(s, a).Some? && (a.BeginRefresh? || a.BeginCheck?)
    ensures Inv(Next(s, a).value) && (a != BeginRefresh(false) ==> Kept(s, Next(s, a).value))
  {
    match a
    case BeginRefresh(_) => case BeginCheck =>
  }

  lemma StepKeepsInv(s: State, a: Action)
    requires Inv(s) && Next(s, a).Some?
    ensures Inv(Next(s, a).value)
    ensures a != BeginRefresh(false) && Usable(s) ==> Usable(Next(s, a).value)
  {
    match a
    case ServerStep(alive) =>
      if Writing(s.server) {
        WritingKeepsInv(s, alive);
      } else if Leaving(s.server) {
        LeavingKeepsInv(s, alive);
      } else if Emptying(s.server) {
        EmptyingKeepsInv(s, alive);
      } else {
        RequestingKeepsInv(s, alive);
      }
    case MoverStep =>
      if Shaping(s.mover) {
        ShapingKeepsInv(s);
      } else {
        MovingKeepsInv(s);
      }
    case RendererStep(ok) =>
      if s.renderer.RefreshUpdated? {
        RefreshBeginsKeepsInv(s, ok);
      } else if Refreshing(s.renderer) {
        RefreshEndsKeepsInv(s, ok);
      } else if s.renderer.SeeWait? || s.renderer.SeeFlags? {
        TestingKeepsInv(s, ok);
      } else if Choosing(s.renderer) {
        ChoosingKeepsInv(s, ok);
      } else if Panning(s.renderer) {
        PanningKeepsInv(s, ok);
      } else if Preparing(s.renderer) {
        PreparingKeepsInv(s, ok);
      } else if Updating(s.renderer) {
        UpdatingKeepsInv(s, ok);
      } else if DrawingCursor(s.renderer) {
        DrawingCursorKeepsInv(s, ok);
      } else {
        FinishingKeepsInv(s, ok);
      }
    case BeginMove => OtherBeginKeepsInv(s, a);
    case LoseSurface => OtherBeginKeepsInv(s, a);
    case FailRefresh => OtherBeginKeepsInv(s, a);
    case BeginWrite => LockingKeepsInv(s, a);
    case BeginShape => LockingKeepsInv(s, a);
    case BeginRefresh(_) => LookingKeepsInv(s, a);
    case BeginCheck => LookingKeepsInv(s, a);
    case BeginTick => RaisingKeepsInv(s, a);
    case BeginConnect => RaisingKeepsInv(s, a);
    case RequestDraw => RaisingKeepsInv(s, a);
  }

  // ----- whole runs -----

  /** The state after a schedule, if every step of it was enabled. */
  function Exec(acts: seq<Action>): Option<State> {
    if acts == [] then Some(Initial)
    else
      match Exec(acts[..|acts| - 1])
      case None => None
      case Some(s) => Next(s, acts[|acts| - 1])
  }

  lemma {:induction false} ReachableInv(acts: seq<Action>)
    requires Exec(acts).Some?
    ensures Inv(Exec(acts).value)
  {
    if acts != [] {
      var before := acts[..|acts| - 1];
      ReachableInv(before);
      StepKeepsInv(Exec(before).value, acts[|acts| - 1]);
    }
  }

  /** No thread is in the middle of anything and no flag asks for a frame. */
  predicate AtRest(s: State) {
    && s.server.Idle? && s.mover.Resting? && s.renderer.Top?
    && !s.damage && !s.drawRequested && !s.cursorMoved && !s.cursorUpdated
  }

  /** No update is lost, whatever the interleaving; once everything is at rest the screen is current.
      The one exception is confined to times without a surface: see BlankedOnlyByInvalidWindow. */
  lemma NoUpdateLost(acts: seq<Action>)
    requires Exec(acts).Some?
    ensures var s := Exec(acts).value;
      && (RootSafe(s) || (s.blanked && (!s.surfaceAvailable || Refreshing(s.renderer))))
      && (ShapeSafe(s) || (s.blanked && (!s.surfaceAvailable || Refreshing(s.renderer))))
      && PositionSafe(s)
      && (AtRest(s) ==> s.shownX == s.cursorX && s.shownY == s.cursorY)
      && (AtRest(s) && s.surfaceAvailable ==> s.shown == s.content && s.shownShape == s.shape)
  {
    ReachableInv(acts);
  }

  lemma FramesPaced(acts: seq<Action>)
    requires Exec(acts).Some?
    ensures Exec(acts).value.frames <= Exec(acts).value.ticks + 1
  {
    ReachableInv(acts);
  }

  lemma FramesNotTorn(acts: seq<Action>)
    requires Exec(acts).Some?
    ensures var s := Exec(acts).value; Sampled(s) ==> s.shown == s.content && s.rootLock.Renderer?
  {
    ReachableInv(acts);
  }

  /** Without an unusable window the guarantee is unconditional. */
  lemma {:induction false} BlankedOnlyByInvalidWindow(acts: seq<Action>)
    requires Exec(acts).Some? && BeginRefresh(false) !in acts
    ensures var s := Exec(acts).value; Usable(s) && RootSafe(s) && ShapeSafe(s)
  {
    if acts != [] {
      var before, a := acts[..|acts| - 1], acts[|acts| - 1];
      assert a in acts && forall b :: b in before ==> b in acts;
      BlankedOnlyByInvalidWindow(before);
      ReachableInv(before);
      StepKeepsInv(Exec(before).value, a);
    }
  }

  /** An unusable window that gets as far as the last assignments loses a root update exactly when that is not on the
      screen and neither damage nor the server's own step will bring it back, and a cursor shape exactly when that is
      not on the screen and its flag is not about to be set. */
  lemma UnusableWindowLosesIff(acts: seq<Action>, ok: bool)
    requires Exec(acts).Some?
    ensures var s := Exec(acts).value;
      && (s.renderer == RefreshUpdated(false) ==>
            && NextRenderer(s, ok).Some?
            && (ShapeSafe(NextRenderer(s, ok).value) <==> s.mover.ShapeFlag? || s.shownShape == s.shape))
      && (s.renderer == RefreshRequested(false) ==>
            && NextRenderer(s, ok).Some?
            && (RootSafe(NextRenderer(s, ok).value) <==>
                  s.damage || s.server.Wrote? || s.server.TickRequest? || s.shown == s.content))
  {
    var s := Exec(acts).value;
    match s.renderer
    case RefreshUpdated(v) => case RefreshRequested(v) => case _ =>
  }

  /** The next usable window makes up for it: everything is drawn anew on it. */
  lemma UsableWindowRecovers(acts: seq<Action>, ok: bool)
    requires Exec(acts).Some? && Exec(acts).value.renderer == RefreshSurface(true)
    ensures var t := NextRenderer(Exec(acts).value, ok);
      t.Some? && t.value.surfaceAvailable && t.value.drawRequested && t.value.cursorUpdated && !t.value.blanked
  {
    ReachableInv(acts);
  }

  /** At rest, the zoom window was computed from the current cursor exactly when no coordinate was written
      between the pan code's read of it and the clearing of `cursor.moved`. */
  lemma PanCurrentIffNotLate(acts: seq<Action>)
    requires Exec(acts).Some? && AtRest(Exec(acts).value)
    ensures var s := Exec(acts).value; (s.panX == s.cursorX && s.panY == s.cursorY) <==> !s.late
  {
    ReachableInv(acts);
  }

  // ----- two schedules -----

  lemma Do(acts: seq<Action>, s: State, a: Action, t: State) returns (acts': seq<Action>)
    requires Exec(acts) == Some(s) && Next(s, a) == Some(t)
    ensures Exec(acts') == Some(t)
  {
    acts' := acts + [a];
    assert acts'[..|acts'| - 1] == acts;
  }

  // The states the two schedules pass through.
  const Opened := Initial.(surfaceAvailable := true, drawRequested := true, cursorUpdated := true)
  const Chosen := Initial.(
    surfaceAvailable := true, drawRequested := true, cursorUpdated := true, renderer := FindBuffer)
  const Panned := Initial.(surfaceAvailable := true, drawRequested := true, cursorUpdated := true, renderer := TakeLock)
  const Moved := Initial.(
    surfaceAvailable := true, drawRequested := true, cursorUpdated := true, renderer := TakeLock,
    cursorX := 1, cursorY := 1, cursorMoved := true, late := true)
  const Copied := Initial.(
    surfaceAvailable := true, cursorUpdated := true, renderer := SeeUpdated, rootLock := Renderer,
    cursorX := 1, cursorY := 1, cursorMoved := true, late := true)
  const CursorTaken := Initial.(
    surfaceAvailable := true, cursorUpdated := true, renderer := ClearUpdated, rootLock := Renderer,
    cursorLock := Renderer, cursorX := 1, cursorY := 1, cursorMoved := true, late := true)
  const Uploaded := Initial.(
    surfaceAvailable := true, renderer := ClearMoved, rootLock := Renderer,
    cursorX := 1, cursorY := 1, cursorMoved := true, late := true)
  const Drawn := Initial.(
    surfaceAvailable := true, renderer := RaiseWait, rootLock := Renderer,
    cursorX := 1, cursorY := 1, shownX := 1, shownY := 1, late := true)
  const Ended := Initial.(
    surfaceAvailable := true, cursorX := 1, cursorY := 1, shownX := 1, shownY := 1, late := true,
    waitForNextFrame := true, frames := 1)
  const Written := Initial.(
    surfaceAvailable := true, drawRequested := true, cursorUpdated := true, content := 1, damage := true)
  const Ticked := Initial.(
    surfaceAvailable := true, drawRequested := true, cursorUpdated := true, content := 1, ticks := 1)
  const Blanked := Initial.(content := 1, ticks := 1, blanked := true)

  lemma WindowOpens() returns (acts: seq<Action>)
    ensures Exec(acts) == Some(Opened)
  {
    acts := [];
    var s1 := Initial.(renderer := RefreshUpdated(true));
    acts := Do(acts, Initial, BeginRefresh(true), s1);
    var s2 := s1.(renderer := RefreshRequested(true), cursorUpdated := true);
    acts := Do(acts, s1, RendererStep(true), s2);
    var s3 := s2.(renderer := RefreshSurface(true), drawRequested := true);
    acts := Do(acts, s2, RendererStep(true), s3);
    acts := Do(acts, s3, RendererStep(true), Opened);
  }

  lemma FrameBegins(before: seq<Action>) returns (acts: seq<Action>)
    requires Exec(before) == Some(Opened)
    ensures Exec(acts) == Some(Chosen)
  {
    acts := before;
    var s1 := Opened.(renderer := SeeSurface);
    acts := Do(acts, Opened, BeginCheck, s1);
    var s2 := s1.(renderer := SeeWait);
    acts := Do(acts, s1, RendererStep(true), s2);
    var s3 := s2.(renderer := SeeFlags);
    acts := Do(acts, s2, RendererStep(true), s3);
    acts := Do(acts, s3, RendererStep(true), Chosen);
  }

  lemma FramePans(before: seq<Action>) returns (acts: seq<Action>)
    requires Exec(before) == Some(Chosen)
    ensures Exec(acts) == Some(Panned)
  {
    acts := before;
    var s1 := Chosen.(renderer := PanX);
    acts := Do(acts, Chosen, RendererStep(true), s1);
    var s2 := s1.(renderer := PanY);
    acts := Do(acts, s1, RendererStep(true), s2);
    acts := Do(acts, s2, RendererStep(true), Panned);
  }

  lemma CursorMoves(before: seq<Action>) returns (acts: seq<Action>)
    requires Exec(before) == Some(Panned)
    ensures Exec(acts) == Some(Moved)
  {
    acts := before;
    var s1 := Panned.(mover := MoveX);
    acts := Do(acts, Panned, BeginMove, s1);
    var s2 := s1.(mover := MoveY, cursorX := 1, late := true);
    acts := Do(acts, s1, MoverStep, s2);
    var s3 := s2.(mover := MoveFlag, cursorY := 1);
    acts := Do(acts, s2, MoverStep, s3);
    acts := Do(acts, s3, MoverStep, Moved);
  }

  lemma FrameCopies(before: seq<Action>) returns (acts: seq<Action>)
    requires Exec(before) == Some(Moved)
    ensures Exec(acts) == Some(Copied)
  {
    acts := before;
    var s1 := Moved.(renderer := ClearRequest, rootLock := Renderer);
    acts := Do(acts, Moved, RendererStep(true), s1);
    var s2 := s1.(renderer := Sample, drawRequested := false);
    acts := Do(acts, s1, RendererStep(true), s2);
    acts := Do(acts, s2, RendererStep(true), Copied);
  }

  lemma FrameTakesCursor(before: seq<Action>) returns (acts: seq<Action>)
    requires Exec(before) == Some(Copied)
    ensures Exec(acts) == Some(CursorTaken)
  {
    acts := before;
    var s1 := Copied.(renderer := TakeCursorLock);
    acts := Do(acts, Copied, RendererStep(true), s1);
    acts := Do(acts, s1, RendererStep(true), CursorTaken);
  }

  lemma FrameUploads(before: seq<Action>) returns (acts: seq<Action>)
    requires Exec(before) == Some(CursorTaken)
    ensures Exec(acts) == Some(Uploaded)
  {
    acts := before;
    var s1 := CursorTaken.(renderer := UploadShape, cursorUpdated := false);
    acts := Do(acts, CursorTaken, RendererStep(true), s1);
    acts := Do(acts, s1, RendererStep(true), Uploaded);
  }

  lemma FrameDraws(before: seq<Action>) returns (acts: seq<Action>)
    requires Exec(before) == Some(Uploaded)
    ensures Exec(acts) == Some(Drawn)
  {
    acts := before;
    var s1 := Uploaded.(renderer := DrawX, cursorMoved := false);
    acts := Do(acts, Uploaded, RendererStep(true), s1);
    var s2 := s1.(renderer := DrawY, shownX := 1);
    acts := Do(acts, s1, RendererStep(true), s2);
    acts := Do(acts, s2, RendererStep(true), Drawn);
  }

  lemma FrameEnds(before: seq<Action>) returns (acts: seq<Action>)
    requires Exec(before) == Some(Drawn)
    ensures Exec(acts) == Some(Ended)
  {
    var s1 := Drawn.(renderer := DropLock, waitForNextFrame := true, frames := 1);
    acts := Do(before, Drawn, RendererStep(true), s1);
    acts := Do(acts, s1, RendererStep(true), Ended);
  }

  /** A schedule on which the cursor moves in that gap: the cursor is drawn where it is, but the window is not
      panned to it, and nothing is pending. */
  lemma PanCanBeLost() returns (acts: seq<Action>)
    ensures Exec(acts).Some?
    ensures var s := Exec(acts).value;
      AtRest(s) && s.surfaceAvailable && s.shownX == s.cursorX == 1 && s.panX == 0
  {
    acts := WindowOpens();
    acts := FrameBegins(acts);
    acts := FramePans(acts);
    acts := CursorMoves(acts);
    acts := FrameCopies(acts);
    acts := FrameTakesCursor(acts);
    acts := FrameUploads(acts);
    acts := FrameDraws(acts);
    acts := FrameEnds(acts);
  }

  lemma RootIsWritten(before: seq<Action>) returns (acts: seq<Action>)
    requires Exec(before) == Some(Opened)
    ensures Exec(acts) == Some(Written)
  {
    acts := before;
    var s1 := Opened.(server := WriteLocked, rootLock := Server);
    acts := Do(acts, Opened, BeginWrite, s1);
    var s2 := s1.(server := Wrote, content := 1);
    acts := Do(acts, s1, ServerStep(true), s2);
    var s3 := s2.(server := Damaged, damage := true);
    acts := Do(acts, s2, ServerStep(true), s3);
    acts := Do(acts, s3, ServerStep(true), Written);
  }

  lemma TickRequestsFrame(before: seq<Action>) returns (acts: seq<Action>)
    requires Exec(before) == Some(Written)
    ensures Exec(acts) == Some(Ticked)
  {
    acts := before;
    var s1 := Written.(server := TickSurface, ticks := 1);
    acts := Do(acts, Written, BeginTick, s1);
    var s2 := s1.(server := TickDamage);
    acts := Do(acts, s1, ServerStep(true), s2);
    var s3 := s2.(server := TickEmpty);
    acts := Do(acts, s2, ServerStep(true), s3);
    var s4 := s3.(server := TickRequest, damage := false);
    acts := Do(acts, s3, ServerStep(true), s4);
    var s5 := s4.(server := TickSignal);
    acts := Do(acts, s4, ServerStep(true), s5);
    acts := Do(acts, s5, ServerStep(true), Ticked);
  }

  lemma UnusableWindow(before: seq<Action>) returns (acts: seq<Action>)
    requires Exec(before) == Some(Ticked)
    ensures Exec(acts) == Some(Blanked)
  {
    acts := before;
    var s1 := Ticked.(renderer := RefreshUpdated(false));
    acts := Do(acts, Ticked, BeginRefresh(false), s1);
    var s2 := s1.(renderer := RefreshRequested(false), cursorUpdated := false, blanked := true);
    acts := Do(acts, s1, RendererStep(true), s2);
    var s3 := s2.(renderer := RefreshSurface(false), drawRequested := false);
    acts := Do(acts, s2, RendererStep(true), s3);
    acts := Do(acts, s3, RendererStep(true), Blanked);
  }

  /** A schedule on which an unusable window clears a draw request: nothing is pending and the root is not shown. */
  lemma InvalidWindowDropsRequest() returns (acts: seq<Action>)
    ensures Exec(acts).Some?
    ensures var s := Exec(acts).value; AtRest(s) && !RootSafe(s)
  {
    acts := WindowOpens();
    acts := RootIsWritten(acts);
    acts := TickRequestsFrame(acts);
    acts := UnusableWindow(acts);
  }
}
