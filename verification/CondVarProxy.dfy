/**
 Replacement of the shared server state and the helper thread that forwards its condition variable.

 The activity thread maps states and hands them to the renderer thread (rendererSetSharedState); the renderer swaps
 them, moves the proxy thread to the new state's condition variable (pthreadCondVarProxyListenOtherCondVar) and
 unmaps the old state.  A step is what a thread does between two points where it can block; everything the proxy
 shares is touched under `proxy.lock`, which only the proxy keeps across a step (pc Running).
 */
module CondVarProxy {
  import opened Options

  type Region = nat                                        // a mapping of lorie_shared_server_state

  datatype Cond = Default | Of(region: Region)             // proxy.def, or &state->cond

  datatype ActivityPc =
    | Idle
    | Call(newState: Option<Region>)                       // wants stateLock in rendererSetSharedState
    | AwaitSwap                                            // waits on stateChangeFinishCond
    | Use(region: Region)                                  // dereferences `state` under stateLock

  datatype RendererPc =
    | Wait | Top
    | Swapped(prev: Option<Region>) | Listen(prev: Option<Region>)
    | AwaitProxy(prev: Option<Region>) | Unmap(prev: Option<Region>)
    | Body | Draw

  datatype ProxyPc = Starting | Sleeping(cond: Cond) | Woken(cond: Cond) | Running

  datatype State = State(
    mapped: set<Region>, unmapped: seq<Region>, nextRegion: Region,
    stateChanged: bool, pending: Option<Region>, state: Option<Region>,
    current: Cond, pendingCond: Option<Cond>, relocked: bool,
    activity: ActivityPc, renderer: RendererPc, proxy: ProxyPc)

  const Initial := State({}, [], 0, false, None, None, Default, None, false, Idle, Wait, Starting)

  datatype Action =
    | MapState | Disconnect | UseState | ActivityStep
    | RendererStep(sleep: bool)
    | ProxyStep

  function CondOf(s: Option<Region>): Cond { if s.Some? then Of(s.value) else Default }

  predicate RendererHoldsStateLock(s: State) { !s.renderer.Wait? && !s.renderer.Draw? }

  predicate StateLockFree(s: State) { !RendererHoldsStateLock(s) && !s.activity.Use? }

  predicate ProxyLockFree(s: State) { !s.proxy.Running? }

  function Next(s: State, a: Action): Option<State> {
    match a
    case MapState =>                                       // EVENT_SHARED_SERVER_STATE
      if s.activity.Idle?
      then Some(s.(mapped := s.mapped + {s.nextRegion}, nextRegion := s.nextRegion + 1,
                   activity := Call(Some(s.nextRegion))))
      else None
    case Disconnect => if s.activity.Idle? then Some(s.(activity := Call(None))) else None
    case UseState =>                                       // rendererSetViewport, rendererSetZoom
      if s.activity.Idle? && StateLockFree(s) && s.state.Some?
      then Some(s.(activity := Use(s.state.value))) else None
    case ActivityStep => NextActivity(s)
    case RendererStep(sleep) => NextRenderer(s, sleep)
    case ProxyStep => NextProxy(s)
  }

  function NextActivity(s: State): Option<State> {
    match s.activity
    case Idle => None
    case Call(n) =>
      if StateLockFree(s) then Some(s.(pending := n, stateChanged := true, activity := AwaitSwap)) else None
    case AwaitSwap => if StateLockFree(s) && !s.stateChanged then Some(s.(activity := Idle)) else None
    case Use(_) => Some(s.(activity := Idle))
  }

  function NextRenderer(s: State, sleep: bool): Option<State> {
    match s.renderer
    case Wait => if StateLockFree(s) then Some(s.(renderer := Top)) else None
    case Top =>
      if s.stateChanged
      then Some(s.(state := s.pending, pending := None, stateChanged := false,
                   renderer := Swapped(if s.state.Some? && s.pending != s.state then s.state else None)))
      else Some(s.(renderer := if sleep then Wait else Body))
    case Swapped(prev) => Some(s.(renderer := Listen(prev))) // state->surfaceAvailable = ...
    case Listen(prev) =>                                    // broadcast, pending, relocked = false, wait
      if ProxyLockFree(s)
      then Some(s.(pendingCond := Some(CondOf(s.state)), relocked := false, renderer := AwaitProxy(prev),
                   proxy := if s.proxy.Sleeping? && s.proxy.cond == s.current then Woken(s.current) else s.proxy))
      else None
    case AwaitProxy(prev) =>
      if ProxyLockFree(s) && s.relocked then Some(s.(renderer := Unmap(prev))) else None
    case Unmap(prev) =>
      Some(if prev.Some?
           then s.(mapped := s.mapped - {prev.value}, unmapped := s.unmapped + [prev.value], renderer := Body)
           else s.(renderer := Body))
    case Body => Some(s.(renderer := Draw))                // unlock, redraw through `state`
    case Draw => if StateLockFree(s) then Some(s.(renderer := Top)) else None
  }

  function NextProxy(s: State): Option<State> {
    match s.proxy
    case Starting => Some(s.(proxy := Sleeping(s.current)))
    case Sleeping(c) => Some(s.(proxy := Woken(c)))        // a signal, or a spurious wake-up
    case Woken(_) => Some(s.(proxy := Running))
    case Running =>
      var c := if s.pendingCond.Some? then s.pendingCond.value else s.current;
      Some(s.(current := c, pendingCond := None, relocked := true, proxy := Sleeping(c)))
  }

  // ----- invariant -----

  function Old(r: RendererPc): Option<Region> {
    match r
    case Swapped(prev) => prev
    case Listen(prev) => prev
    case AwaitProxy(prev) => prev
    case Unmap(prev) => prev
    case _ => None
  }

  predicate Is(o: Option<Region>, r: Region) { o == Some(r) }

  predicate Held(s: State, r: Region) {
    Is(s.state, r) || Is(s.pending, r) || Is(Old(s.renderer), r) || s.activity == Call(Some(r))
  }

  /** Mapped regions are exactly those somebody still holds; every other one was unmapped exactly once. */
  ghost predicate Accounted(s: State) {
    && (forall r :: r in s.mapped <==> Held(s, r))
    && (forall r :: r in s.mapped ==> r < s.nextRegion && r !in s.unmapped)
    && (forall r :: r in s.unmapped ==> r < s.nextRegion)
    && (forall r: Region :: r < s.nextRegion && r !in s.mapped ==> multiset(s.unmapped)[r] == 1)
  }

  /** The holders are different regions, and each phase of the swap holds what it should. */
  predicate Phases(s: State) {
    && (s.pending.Some? ==> s.stateChanged && s.pending != s.state && s.pending != Old(s.renderer))
    && (s.stateChanged ==> s.activity.AwaitSwap? && (s.renderer.Wait? || s.renderer.Top? || s.renderer.Draw?))
    && (Old(s.renderer).Some? ==> Old(s.renderer) != s.state)
    && (s.activity.Call? && s.activity.newState.Some? ==>
          s.activity.newState != s.state && s.activity.newState != s.pending && s.activity.newState != Old(s.renderer))
    && (s.activity.Use? ==> s.state == Some(s.activity.region) && !RendererHoldsStateLock(s))
  }

  /** Where the proxy listens, in each phase of the swap. */
  predicate Listening(s: State) {
    && (s.proxy.Sleeping? || s.proxy.Woken? ==> s.proxy.cond == s.current)
    && (s.renderer.Swapped? || s.renderer.Listen? ==> s.current == CondOf(Old(s.renderer)) && s.pendingCond.None?)
    && (s.renderer.AwaitProxy? && !s.relocked ==>
          s.pendingCond == Some(CondOf(s.state)) && s.current == CondOf(Old(s.renderer)))
    && (s.renderer.AwaitProxy? && s.relocked ==> s.pendingCond.None? && s.current == CondOf(s.state))
    && (!s.renderer.Swapped? && !s.renderer.Listen? && !s.renderer.AwaitProxy? ==>
          s.pendingCond.None? && s.current == CondOf(s.state))
  }

  ghost predicate Inv(s: State) { Accounted(s) && Phases(s) && Listening(s) }

  lemma PhasesKept(s: State, a: Action)
    requires Phases(s) && Next(s, a).Some? && !a.MapState?
    ensures Phases(Next(s, a).value)
  {
    match a
    case ActivityStep =>
      match s.activity { case Call(_) => case AwaitSwap => case Use(_) => case Idle => }
    case RendererStep(_) =>
      match s.renderer {
        case Wait => case Top => case Swapped(_) => case Listen(_) => case AwaitProxy(_) => case Unmap(_) =>
        case Body => case Draw =>
      }
    case ProxyStep =>
      match s.proxy { case Starting => case Sleeping(_) => case Woken(_) => case Running => }
    case Disconnect => case UseState =>
    case _ =>
  }

  lemma ListeningKept(s: State, a: Action)
    requires Phases(s) && Listening(s) && Next(s, a).Some?
    ensures Listening(Next(s, a).value)
  {
    match a
    case ActivityStep =>
      match s.activity { case Call(_) => case AwaitSwap => case Use(_) => case Idle => }
    case RendererStep(_) =>
      match s.renderer {
        case Wait => case Top => case Swapped(_) => case Listen(_) => case AwaitProxy(_) => case Unmap(_) =>
        case Body => case Draw =>
      }
    case ProxyStep =>
      match s.proxy { case Starting => case Sleeping(_) => case Woken(_) => case Running => }
    case MapState => case Disconnect => case UseState =>
  }

  lemma AccountedKept(s: State, a: Action)
    requires Inv(s) && Next(s, a).Some?
    ensures Accounted(Next(s, a).value) && Phases(Next(s, a).value)
  {
    var t := Next(s, a).value;
    if !a.MapState? {
      PhasesKept(s, a);
    }
    match a
    case MapState =>
      assert !Held(s, s.nextRegion);
      assert forall r :: Held(t, r) <==> Held(s, r) || r == s.nextRegion;
    case RendererStep(_) =>
      if s.renderer.Unmap? && s.renderer.prev.Some? {
        var gone := s.renderer.prev.value;
        assert Held(s, gone) && !Held(t, gone);
        assert forall r :: Held(t, r) <==> Held(s, r) && r != gone;
        assert multiset(t.unmapped) == multiset(s.unmapped) + multiset{gone};
        assert multiset(s.unmapped)[gone] == 0;
      } else {
        SameHolders(s, a);
      }
    case _ => SameHolders(s, a);
  }

  lemma SameHolders(s: State, a: Action)
    requires Phases(s) && Next(s, a).Some? && !a.MapState?
    requires !(a.RendererStep? && s.renderer.Unmap? && s.renderer.prev.Some?)
    ensures var t := Next(s, a).value;
      && t.mapped == s.mapped && t.unmapped == s.unmapped && t.nextRegion == s.nextRegion
      && forall r :: Held(t, r) <==> Held(s, r)
  {
    match a
    case ActivityStep =>
      match s.activity { case Call(_) => case AwaitSwap => case Use(_) => case Idle => }
    case RendererStep(_) =>
      match s.renderer {
        case Wait => case Top => case Swapped(_) => case Listen(_) => case AwaitProxy(_) => case Unmap(_) =>
        case Body => case Draw =>
      }
    case ProxyStep =>
      match s.proxy { case Starting => case Sleeping(_) => case Woken(_) => case Running => }
    case _ =>
  }

  function Exec(acts: seq<Action>): Option<State> {
    if acts == [] then Some(Initial)
    else
      match Exec(acts[..|acts| - 1])
      case None => None
      case Some(s) => Next(s, acts[|acts| - 1])
  }

  lemma {:induction false} ReachableInv(acts: seq<Action>)
    requires Exec(acts).Some?
    ensures Inv(Exec(acts).value)
  {
    if acts != [] {
      var before := acts[..|acts| - 1];
      ReachableInv(before);
      AccountedKept(Exec(before).value, acts[|acts| - 1]);
      ListeningKept(Exec(before).value, acts[|acts| - 1]);
    }
  }

  // ----- what is guaranteed -----

  predicate CondMapped(s: State, c: Cond) { c.Of? ==> c.region in s.mapped }

  /** Every thread only ever refers to mapped memory: the proxy through the variable it sleeps on and the ones it may
      sleep on next, the renderer through `state`, the activity through `state` and what it is handing over. */
  lemma NothingRefersToUnmappedMemory(acts: seq<Action>)
    requires Exec(acts).Some?
    ensures var s := Exec(acts).value;
      && (s.proxy.Sleeping? || s.proxy.Woken? ==> CondMapped(s, s.proxy.cond))
      && CondMapped(s, s.current)
      && (s.pendingCond.Some? ==> CondMapped(s, s.pendingCond.value))
      && (s.state.Some? ==> s.state.value in s.mapped)
      && (s.activity.Use? ==> s.activity.region in s.mapped)
      && (s.pending.Some? ==> s.pending.value in s.mapped)
  {
    ReachableInv(acts);
    var s := Exec(acts).value;
    assert s.state.Some? ==> Held(s, s.state.value);
    assert s.pending.Some? ==> Held(s, s.pending.value);
    assert Old(s.renderer).Some? ==> Held(s, Old(s.renderer).value);
  }

  /** When a replaced state is about to be unmapped, the proxy is on the new variable and no thread has the old one. */
  lemma UnmapIsSafe(acts: seq<Action>)
    requires Exec(acts).Some? && Exec(acts).value.renderer.Unmap? && Exec(acts).value.renderer.prev.Some?
    ensures var s := Exec(acts).value; var r := s.renderer.prev.value;
      && s.current == CondOf(s.state) != Of(r)
      && (s.proxy.Sleeping? || s.proxy.Woken? ==> s.proxy.cond == CondOf(s.state))
      && s.pendingCond.None?
      && s.state != Some(r) && s.pending != Some(r) && s.activity != Call(Some(r)) && s.activity != Use(r)
      && r in s.mapped
  {
    ReachableInv(acts);
    var s := Exec(acts).value;
    assert Held(s, s.renderer.prev.value);
  }

  /** Every region ever mapped is either held by someone or was unmapped exactly once. */
  lemma UnmappedExactlyOnce(acts: seq<Action>, r: Region)
    requires Exec(acts).Some? && r < Exec(acts).value.nextRegion
    ensures var s := Exec(acts).value;
      multiset(s.unmapped)[r] == (if Held(s, r) then 0 else 1) && (r in s.mapped <==> Held(s, r))
  {
    ReachableInv(acts);
    var s := Exec(acts).value;
    if r in s.mapped {
      assert r !in multiset(s.unmapped);
    }
  }

  lemma ExecMore(acts: seq<Action>, a: Action)
    requires Exec(acts).Some?
    ensures Exec(acts + [a]) == Next(Exec(acts).value, a)
  {
    assert (acts + [a])[..|acts|] == acts;
  }

  /** The handshake completes: from every reachable state in which the renderer has swapped the state and the proxy
      sleeps, three steps of the renderer and two of the proxy move the proxy to the new variable and unmap the old
      state. */
  lemma SwapCompletes(acts: seq<Action>)
    requires Exec(acts).Some? && Exec(acts).value.renderer.Listen? && Exec(acts).value.proxy.Sleeping?
    ensures var s := Exec(acts).value;
      var done := Exec(acts + [RendererStep(false)] + [ProxyStep] + [ProxyStep] + [RendererStep(false)]
                       + [RendererStep(false)]);
      && done.Some? && done.value.renderer.Body? && done.value.state == s.state
      && done.value.proxy == Sleeping(CondOf(s.state)) && done.value.current == CondOf(s.state)
      && (s.renderer.prev.Some? ==> s.renderer.prev.value !in done.value.mapped)
  {
    ReachableInv(acts);
    var s := Exec(acts).value;
    var acts1 := acts + [RendererStep(false)];
    ExecMore(acts, RendererStep(false));
    var acts2 := acts1 + [ProxyStep];
    ExecMore(acts1, ProxyStep);
    var acts3 := acts2 + [ProxyStep];
    ExecMore(acts2, ProxyStep);
    var acts4 := acts3 + [RendererStep(false)];
    ExecMore(acts3, RendererStep(false));
    ExecMore(acts4, RendererStep(false));
  }
}
