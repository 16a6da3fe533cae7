/**
 What is pending is served: from every reachable state between two tasks, a tick of the server and a turn of the
 renderer bring the screen up to date. FrameProtocol says that nothing is lost; this says that what it calls pending
 gets drawn.
 */
module FrameService {
  import opened Options
  import opened FrameProtocol

  /** n steps of the renderer alone, with the buffer found; of the server alone, with a live connection. */
  function RendererAlone(s: State, n: nat): Option<State>
    decreases n
  {
    if n == 0 then Some(s) else if NextRenderer(s, true).None? then None
    else RendererAlone(NextRenderer(s, true).value, n - 1)
  }

  function ServerAlone(s: State, n: nat): Option<State>
    decreases n
  {
    if n == 0 then Some(s) else if NextServer(s, true).None? then None
    else ServerAlone(NextServer(s, true).value, n - 1)
  }

  function Times(a: Action, n: nat): (acts: seq<Action>)
    ensures |acts| == n && forall i :: 0 <= i < n ==> acts[i] == a
  {
    if n == 0 then [] else [a] + Times(a, n - 1)
  }

  lemma ExecMore(acts: seq<Action>, a: Action)
    requires Exec(acts).Some?
    ensures Exec(acts + [a]) == Next(Exec(acts).value, a)
  {
    assert (acts + [a])[..|acts|] == acts;
  }

  lemma {:induction false} ExecRenderer(acts: seq<Action>, n: nat)
    requires Exec(acts).Some? && RendererAlone(Exec(acts).value, n).Some?
    ensures Exec(acts + Times(RendererStep(true), n)) == RendererAlone(Exec(acts).value, n)
    decreases n
  {
    if n == 0 {
      assert acts + [] == acts;
    } else {
      var more := acts + [RendererStep(true)];
      ExecMore(acts, RendererStep(true));
      ExecRenderer(more, n - 1);
      assert acts + Times(RendererStep(true), n) == more + Times(RendererStep(true), n - 1);
    }
  }

  lemma {:induction false} ExecServer(acts: seq<Action>, n: nat)
    requires Exec(acts).Some? && ServerAlone(Exec(acts).value, n).Some?
    ensures Exec(acts + Times(ServerStep(true), n)) == ServerAlone(Exec(acts).value, n)
    decreases n
  {
    if n == 0 {
      assert acts + [] == acts;
    } else {
      var more := acts + [ServerStep(true)];
      ExecMore(acts, ServerStep(true));
      ExecServer(more, n - 1);
      assert acts + Times(ServerStep(true), n) == more + Times(ServerStep(true), n - 1);
    }
  }

  lemma {:induction false} RendererGoesOn(s: State, m: nat, n: nat)
    requires RendererAlone(s, m).Some?
    ensures RendererAlone(s, m + n) == RendererAlone(RendererAlone(s, m).value, n)
    decreases m
  {
    if m > 0 {
      RendererGoesOn(NextRenderer(s, true).value, m - 1, n);
    }
  }

  /** The other threads and their data are as they were. */
  predicate SameElsewhere(s: State, t: State) {
    && t.server == s.server && t.mover == s.mover && t.ticks == s.ticks && t.surfaceAvailable == s.surfaceAvailable
    && t.damage == s.damage && t.content == s.content && t.shape == s.shape
    && t.cursorX == s.cursorX && t.cursorY == s.cursorY
  }

  predicate Pending(s: State) { s.drawRequested || s.cursorMoved || s.cursorUpdated }

  /** With a surface and no frame to wait for, the renderer goes on to draw if and only if one of the three flags is
      set; otherwise it goes back without drawing. */
  lemma RendererTests(s: State)
    requires s.renderer.SeeSurface?
    ensures var t := RendererAlone(s, 3);
      s.surfaceAvailable && !s.waitForNextFrame ==>
        t == Some(s.(renderer := if Pending(s) then FindBuffer else Top))
    ensures !s.surfaceAvailable ==> RendererAlone(s, 1) == Some(s.(renderer := Top))
    ensures s.surfaceAvailable && s.waitForNextFrame ==> RendererAlone(s, 2) == Some(s.(renderer := Top))
  {
    if s.surfaceAvailable {
      var s1 := s.(renderer := SeeWait);
      assert NextRenderer(s, true) == Some(s1);
      if !s.waitForNextFrame {
        var s2 := s1.(renderer := SeeFlags);
        assert NextRenderer(s1, true) == Some(s2);
        assert RendererAlone(s2, 1) == NextRenderer(s2, true);
        assert RendererAlone(s1, 2) == RendererAlone(s2, 1);
      } else {
        assert RendererAlone(s1, 1) == NextRenderer(s1, true);
      }
    }
  }

  /** From there, with the root lock free, the renderer copies the root as it is. */
  lemma RendererCopies(s: State)
    requires s.renderer.FindBuffer? && s.rootLock.Free?
    ensures RendererAlone(s, 6)
         == Some(s.(renderer := SeeUpdated, rootLock := Renderer, panX := s.cursorX, panY := s.cursorY,
                    late := false, drawRequested := false, shown := s.content))
  {
    var s1 := s.(renderer := PanX);
    var s3 := s1.(renderer := TakeLock, panX := s.cursorX, panY := s.cursorY, late := false);
    RendererPans(s1);
    var s4 := s3.(renderer := ClearRequest, rootLock := Renderer);
    assert NextRenderer(s3, true) == Some(s4);
    var s5 := s4.(renderer := Sample, drawRequested := false);
    assert NextRenderer(s4, true) == Some(s5);
    assert RendererAlone(s5, 1) == NextRenderer(s5, true);
    assert RendererAlone(s4, 2) == RendererAlone(s5, 1);
    assert RendererAlone(s3, 3) == RendererAlone(s4, 2);
    RendererGoesOn(s1, 2, 3);
    assert NextRenderer(s, true) == Some(s1);
  }

  lemma RendererPans(s: State)
    requires s.renderer.PanX?
    ensures RendererAlone(s, 2) == Some(s.(renderer := TakeLock, panX := s.cursorX, panY := s.cursorY, late := false))
  {
    var s1 := s.(renderer := PanY, panX := s.cursorX, late := false);
    assert NextRenderer(s, true) == Some(s1);
    assert RendererAlone(s1, 1) == NextRenderer(s1, true);
  }

  /** It takes over a changed cursor shape. */
  lemma RendererUploads(s: State)
    requires s.renderer.SeeUpdated? && s.cursorLock.Free?
    ensures RendererAlone(s, if s.cursorUpdated then 4 else 1)
         == Some(s.(renderer := ClearMoved, cursorUpdated := false,
                    shownShape := if s.cursorUpdated then s.shape else s.shownShape))
  {
    if s.cursorUpdated {
      var s1 := s.(renderer := TakeCursorLock);
      assert NextRenderer(s, true) == Some(s1);
      var s2 := s1.(renderer := ClearUpdated, cursorLock := Renderer);
      assert NextRenderer(s1, true) == Some(s2);
      RendererTakesShape(s2);
      assert RendererAlone(s1, 3) == RendererAlone(s2, 2);
    } else {
      assert RendererAlone(s, 1) == NextRenderer(s, true);
    }
  }

  lemma RendererTakesShape(s: State)
    requires s.renderer.ClearUpdated?
    ensures RendererAlone(s, 2)
         == Some(s.(renderer := ClearMoved, cursorUpdated := false, shownShape := s.shape, cursorLock := Free))
  {
    var s1 := s.(renderer := UploadShape, cursorUpdated := false);
    assert NextRenderer(s, true) == Some(s1);
    assert RendererAlone(s1, 1) == NextRenderer(s1, true);
  }

  /** It draws the cursor where it is and asks for the next tick. */
  lemma RendererFinishes(s: State)
    requires s.renderer.ClearMoved?
    ensures RendererAlone(s, 5) == Some(s.(renderer := Top, rootLock := Free, cursorMoved := false, shownX := s.cursorX,
                                           shownY := s.cursorY, waitForNextFrame := true, frames := s.frames + 1))
  {
    var s1 := s.(renderer := DrawX, cursorMoved := false);
    assert NextRenderer(s, true) == Some(s1);
    var s2 := s1.(renderer := DrawY, shownX := s.cursorX);
    assert NextRenderer(s1, true) == Some(s2);
    var s3 := s2.(renderer := RaiseWait, shownY := s.cursorY);
    assert NextRenderer(s2, true) == Some(s3);
    RendererLeaves(s3);
    assert RendererAlone(s2, 3) == RendererAlone(s3, 2);
    assert RendererAlone(s1, 4) == RendererAlone(s2, 3);
  }

  lemma RendererLeaves(s: State)
    requires s.renderer.RaiseWait?
    ensures RendererAlone(s, 2)
         == Some(s.(renderer := Top, rootLock := Free, waitForNextFrame := true, frames := s.frames + 1))
  {
    var s1 := s.(renderer := DropLock, waitForNextFrame := true, frames := s.frames + 1);
    assert NextRenderer(s, true) == Some(s1);
    assert RendererAlone(s1, 1) == NextRenderer(s1, true);
  }

  /** The frame shows everything as it is, and leaves nothing pending. */
  predicate Served(s: State, t: State) {
    && SameElsewhere(s, t) && t.renderer.Top? && !Pending(t)
    && t.shown == t.content && t.shownX == t.cursorX && t.shownY == t.cursorY
    && t.panX == t.cursorX && t.panY == t.cursorY
    && t.shownShape == (if s.cursorUpdated then t.shape else s.shownShape)
    && t.frames == s.frames + 1 && t.waitForNextFrame
  }

  function FrameSteps(s: State): nat { if s.cursorUpdated then 15 else 12 }

  lemma FrameServes(s: State)
    requires s.renderer.FindBuffer? && s.rootLock.Free? && s.cursorLock.Free?
    ensures RendererAlone(s, FrameSteps(s)).Some? && Served(s, RendererAlone(s, FrameSteps(s)).value)
  {
    RendererCopies(s);
    var t := RendererAlone(s, 6).value;
    RendererUploads(t);
    var n := if t.cursorUpdated then 4 else 1;
    var u := RendererAlone(t, n).value;
    RendererFinishes(u);
    RendererGoesOn(t, n, 5);
    RendererGoesOn(s, 6, n + 5);
  }

  /** A tick with a surface turns damage into a request, and lets the renderer draw again. */
  lemma TickServes(s: State)
    requires s.server.TickSurface? && s.surfaceAvailable
    ensures ServerAlone(s, if s.damage then 5 else 3)
         == Some(s.(server := Idle, damage := false, drawRequested := s.drawRequested || s.damage))
  {
    var s1 := s.(server := TickDamage);
    assert NextServer(s, true) == Some(s1);
    if s.damage {
      var s2 := s1.(server := TickEmpty);
      assert NextServer(s1, true) == Some(s2);
      DamageBecomesRequest(s2);
      assert ServerAlone(s1, 4) == ServerAlone(s2, 3);
    } else {
      var s2 := s1.(server := TickSignal);
      assert NextServer(s1, true) == Some(s2);
      assert ServerAlone(s2, 1) == NextServer(s2, true);
      assert ServerAlone(s1, 2) == ServerAlone(s2, 1);
    }
  }

  lemma DamageBecomesRequest(s: State)
    requires s.server.TickEmpty?
    ensures ServerAlone(s, 3) == Some(s.(server := Idle, damage := false, drawRequested := true))
  {
    var s1 := s.(server := TickRequest, damage := false);
    assert NextServer(s, true) == Some(s1);
    var s2 := s1.(server := TickSignal, drawRequested := true);
    assert NextServer(s1, true) == Some(s2);
    assert ServerAlone(s2, 1) == NextServer(s2, true);
    assert ServerAlone(s1, 2) == ServerAlone(s2, 1);
  }

  /** All threads between two tasks, with a surface. */
  predicate Ready(s: State) { s.server.Idle? && s.mover.Resting? && s.renderer.Top? && s.surfaceAvailable }

  lemma LocksFree(s: State)
    requires Inv(s) && Ready(s)
    ensures s.rootLock.Free? && s.cursorLock.Free? && !s.blanked
  {}

  /** After the tick alone: damage has become a request, and the renderer may draw. */
  function Relieved(s: State): State {
    s.(waitForNextFrame := false, ticks := s.ticks + 1, damage := false, drawRequested := s.drawRequested || s.damage)
  }

  function TickSteps(s: State): nat { if s.damage then 5 else 3 }

  lemma TickCompletes(s: State)
    requires Ready(s)
    ensures Next(s, BeginTick).Some?
    ensures ServerAlone(Next(s, BeginTick).value, TickSteps(s)) == Some(Relieved(s))
  {
    var s1 := s.(server := TickSurface, waitForNextFrame := false, ticks := s.ticks + 1);
    TickServes(s1);
    TickedFrom(s, s1);
  }

  lemma TickedFrom(s: State, s1: State)
    requires s.server.Idle? && s1 == s.(server := TickSurface, waitForNextFrame := false, ticks := s.ticks + 1)
    ensures s1.(server := Idle, damage := false, drawRequested := s1.drawRequested || s1.damage) == Relieved(s)
  {}

  lemma AfterTick(acts: seq<Action>) returns (more: seq<Action>)
    requires Exec(acts).Some? && Ready(Exec(acts).value)
    ensures more == acts + [BeginTick] + Times(ServerStep(true), TickSteps(Exec(acts).value))
    ensures Exec(more) == Some(Relieved(Exec(acts).value))
  {
    var s := Exec(acts).value;
    ExecMore(acts, BeginTick);
    TickCompletes(s);
    ExecServer(acts + [BeginTick], TickSteps(s));
    more := acts + [BeginTick] + Times(ServerStep(true), TickSteps(s));
  }

  /** The check alone: it leads to a frame if and only if a flag is set and no tick has to be waited for. */
  lemma CheckFindsPending(acts: seq<Action>)
    requires Exec(acts).Some? && Ready(Exec(acts).value)
    ensures var s, t := Exec(acts).value, Exec(acts + [BeginCheck] + Times(RendererStep(true), 3));
      && (!s.waitForNextFrame ==> t == Some(s.(renderer := if Pending(s) then FindBuffer else Top)))
      && (s.waitForNextFrame ==> Exec(acts + [BeginCheck] + Times(RendererStep(true), 2)) == Some(s))
  {
    var s := Exec(acts).value;
    var s1 := s.(renderer := SeeSurface);
    ExecMore(acts, BeginCheck);
    assert Next(s, BeginCheck) == Some(s1);
    RendererTests(s1);
    if s.waitForNextFrame {
      ExecRenderer(acts + [BeginCheck], 2);
      assert s1.(renderer := Top) == s;
    } else {
      ExecRenderer(acts + [BeginCheck], 3);
      assert s1.(renderer := Top) == s.(renderer := Top);
      assert s1.(renderer := FindBuffer) == s.(renderer := FindBuffer);
    }
  }

  /** Steps of the server and the renderer that bring nothing new. */
  predicate ServingStep(a: Action) {
    a == BeginTick || a == ServerStep(true) || a == BeginCheck || a == RendererStep(true)
  }

  /** What NoUpdateLost calls pending is served.  From every reachable state in which all threads are between two tasks
      and there is a surface, one tick and one turn of the renderer bring the screen up to date: with exactly one frame
      if there is damage or a flag is set, and without a frame otherwise. */
  lemma PendingIsServed(acts: seq<Action>) returns (more: seq<Action>)
    requires Exec(acts).Some? && Ready(Exec(acts).value)
    ensures forall i :: 0 <= i < |more| ==> ServingStep(more[i])
    ensures Exec(acts + more).Some? && UpToDate(Exec(acts).value, Exec(acts + more).value)
  {
    var s := Exec(acts).value;
    var ticked := AfterTick(acts);
    ReachableInv(ticked);
    CurrentAfter(s);
    CheckFindsPending(ticked);
    var checked := ticked + [BeginCheck] + Times(RendererStep(true), 3);
    var tick, check := [BeginTick] + Times(ServerStep(true), TickSteps(s)), [BeginCheck] + Times(RendererStep(true), 3);
    if Pending(Relieved(s)) {
      var t := Relieved(s).(renderer := FindBuffer);
      ExecRenderer(checked, FrameSteps(t));
      more := tick + check + Times(RendererStep(true), FrameSteps(t));
      assert acts + more == checked + Times(RendererStep(true), FrameSteps(t));
    } else {
      more := tick + check;
      assert acts + more == checked;
    }
  }

  /** The screen shows everything as it is, nothing is pending, and there was a frame if there was something to show. */
  predicate UpToDate(s: State, t: State) {
    && AtRest(t) && t.content == s.content && t.shape == s.shape && t.cursorX == s.cursorX && t.cursorY == s.cursorY
    && t.shown == t.content && t.shownX == t.cursorX && t.shownY == t.cursorY && t.shownShape == t.shape
    && t.frames == s.frames + (if s.damage || Pending(s) then 1 else 0)
  }

  lemma CurrentAfter(s: State)
    requires Ready(s) && Inv(Relieved(s))
    ensures var u, t := Relieved(s), Relieved(s).(renderer := FindBuffer);
      if Pending(u) then
        RendererAlone(t, FrameSteps(t)).Some? && UpToDate(s, RendererAlone(t, FrameSteps(t)).value)
      else UpToDate(s, u.(renderer := Top))
  {
    var u, t := Relieved(s), Relieved(s).(renderer := FindBuffer);
    LocksFree(u);
    if Pending(u) {
      FrameServes(t);
      ServedIsUpToDate(s, u, RendererAlone(t, FrameSteps(t)).value);
    } else {
      ServedIsUpToDate(s, u, u.(renderer := Top));
    }
  }

  lemma ServedIsUpToDate(s: State, u: State, t: State)
    requires Ready(s) && u == Relieved(s) && Inv(u) && !u.blanked
    requires if Pending(u) then Served(u.(renderer := FindBuffer), t) else t == u.(renderer := Top)
    ensures UpToDate(s, t)
  {}

  /** A new connection asks for everything to be drawn. */
  lemma ConnectionIsServed(acts: seq<Action>)
    requires Exec(acts).Some? && Exec(acts).value.server.Idle?
    ensures var s := Exec(acts).value;
      Exec(acts + [BeginConnect] + [ServerStep(true)]) == Some(s.(drawRequested := true, cursorUpdated := true))
  {
    var s := Exec(acts).value;
    ExecMore(acts, BeginConnect);
    ExecMore(acts + [BeginConnect], ServerStep(true));
    var s1 := s.(server := ConnectRequest, cursorUpdated := true);
    assert Next(s, BeginConnect) == Some(s1);
    assert NextServer(s1, true) == Some(s.(drawRequested := true, cursorUpdated := true));
  }
}
