/**
 Agreement of the server's `registeredBuffers` with the renderer's live buffers (attached to GL or about to be),
 through the in-flight ADD and REMOVE messages of one connection.
 */
module BufferRegistry {
  import opened Options
  import BL = BufferLists

  datatype Message = AddBuffer(id: nat) | RemoveBuffer(id: nat)

  datatype State = State(
    serverOpen: bool,          // conn_fd != -1 in the server
    activityOpen: bool,        // conn_fd != -1 in the activity
    registered: seq<nat>,      // registeredBuffers, newest first
    channel: seq<Message>,     // sent and not yet read
    renderer: BL.State)

  const Initial := State(false, false, [], [], BL.Initial)

  datatype Action =
    | Register(id: nat) | Unregister(id: nat) | ServerHangup
    | Deliver | ActivityHangup
    | RendererStep(step: BL.Action)
    | Connect                  // only when neither side has a connection

  function Drop(s: seq<nat>, id: nat): (r: seq<nat>)
    ensures forall x :: x in r <==> x in s && x != id
  {
    if s == [] then []
    else if s[0] == id then Drop(s[1..], id)
    else [s[0]] + Drop(s[1..], id)
  }

  function Send(s: State, m: Message): State {
    if s.activityOpen then s.(channel := s.channel + [m]) else s
  }

  function Receiving(m: Message): BL.Action {
    match m
    case AddBuffer(id) => BL.Receive(id)
    case RemoveBuffer(id) => BL.Remove(id)
  }

  function Next(s: State, a: Action): Option<State> {
    match a
    case Register(id) =>
      if !s.serverOpen || id in s.registered then Some(s)
      else Some(Send(s, AddBuffer(id)).(registered := [id] + s.registered))
    case Unregister(id) =>
      if !s.serverOpen || id !in s.registered then Some(s)
      else Some(Send(s, RemoveBuffer(id)).(registered := Drop(s.registered, id)))
    case ServerHangup => Some(s.(serverOpen := false, registered := []))
    case Deliver =>
      if s.activityOpen && s.channel != []
      then Some(s.(channel := s.channel[1..], renderer := BL.Next(s.renderer, Receiving(s.channel[0])).value))
      else None
    case ActivityHangup =>
      Some(s.(activityOpen := false, channel := [], renderer := BL.Next(s.renderer, BL.RemoveAll).value))
    case RendererStep(step) =>
      if BL.ByActivity(step) || BL.Next(s.renderer, step).None? then None
      else Some(s.(renderer := BL.Next(s.renderer, step).value))
    case Connect =>
      if s.serverOpen || s.activityOpen then None
      else Some(s.(serverOpen := true, activityOpen := true, channel := []))
  }

  predicate IsLive(l: BL.Lists, b: BL.Buffer) { b in l.added || b in l.attached }

  function LiveIds(l: BL.Lists): (ids: set<nat>)
    ensures forall id :: id in ids <==> exists b :: IsLive(l, b) && b.id == id
  {
    (set b | b in l.added :: b.id) + (set b | b in l.attached :: b.id)
  }

  ghost predicate UniqueIds(l: BL.Lists) {
    && (forall b, c :: IsLive(l, b) && IsLive(l, c) && b.id == c.id ==> b == c)
    && (forall b :: IsLive(l, b) ==> multiset(l.added)[b] + multiset(l.attached)[b] == 1)
  }

  function RegisteredIds(s: State): set<nat> { set id | id in s.registered }

  /** What the receiver's ids become after these messages; None if one is a duplicate ADD or an unknown REMOVE. */
  function Replay(ids: set<nat>, ms: seq<Message>): Option<set<nat>>
    decreases |ms|
  {
    if ms == [] then Some(ids)
    else
      match ms[0]
      case AddBuffer(id) => if id in ids then None else Replay(ids + {id}, ms[1..])
      case RemoveBuffer(id) => if id in ids then Replay(ids - {id}, ms[1..]) else None
  }

  lemma {:induction false} ReplayOneMore(ids: set<nat>, ms: seq<Message>, m: Message)
    requires Replay(ids, ms).Some?
    ensures Replay(ids, ms + [m]) == Replay(Replay(ids, ms).value, [m])
    decreases |ms|
  {
    if ms == [] {
      assert [] + [m] == [m];
    } else {
      assert (ms + [m])[1..] == ms[1..] + [m];
      match ms[0]
      case AddBuffer(id) => ReplayOneMore(ids + {id}, ms[1..], m);
      case RemoveBuffer(id) => ReplayOneMore(ids - {id}, ms[1..], m);
    }
  }

  /** While both ends are up, the messages in flight turn the renderer's live ids into the registered ids. */
  predicate Agreement(s: State) {
    Replay(LiveIds(s.renderer.lists), s.channel) == Some(RegisteredIds(s))
  }

  ghost predicate Inv(s: State) {
    && BL.Inv(s.renderer)
    && UniqueIds(s.renderer.lists)
    && (s.serverOpen && s.activityOpen ==> Agreement(s))
    && (s.activityOpen ==> Replay(LiveIds(s.renderer.lists), s.channel).Some?)
    && (!s.activityOpen ==> LiveIds(s.renderer.lists) == {} && s.channel == [])
    && (!s.serverOpen ==> s.registered == [])
  }

  /** A received buffer with a new id adds just that id. */
  lemma ReceiveLive(s: BL.State, id: nat)
    requires BL.Inv(s) && UniqueIds(s.lists) && id !in LiveIds(s.lists)
    ensures var t := BL.Next(s, BL.Receive(id)).value;
      UniqueIds(t.lists) && LiveIds(t.lists) == LiveIds(s.lists) + {id}
  {
    var b := BL.NewBuffer(s, id);
    var l, m := s.lists, BL.Added(s.lists, b);
    assert !IsLive(l, b);
    assert multiset(m.added) == multiset(l.added) + multiset{b};
    assert forall c :: IsLive(m, c) <==> IsLive(l, c) || c == b;
    assert multiset(l.added)[b] == 0 && multiset(l.attached)[b] == 0;
  }

  /** Removing a live id removes just that id. */
  lemma RemoveLive(l: BL.Lists, id: nat)
    requires UniqueIds(l) && id in LiveIds(l)
    ensures UniqueIds(BL.Removed(l, id)) && LiveIds(BL.Removed(l, id)) == LiveIds(l) - {id}
  {
    var m := BL.Removed(l, id);
    var gone := RemovedOne(l, id);
    forall c ensures IsLive(m, c) <==> IsLive(l, c) && c != gone
             ensures IsLive(m, c) ==> multiset(m.added)[c] + multiset(m.attached)[c] == 1
    {
      CountsDecideMembership(l, m, gone, c);
    }
    OneGone(l, m, gone);
  }

  lemma OneGone(l: BL.Lists, m: BL.Lists, gone: BL.Buffer)
    requires UniqueIds(l) && IsLive(l, gone)
    requires forall c :: IsLive(m, c) <==> IsLive(l, c) && c != gone
    requires forall c :: IsLive(m, c) ==> multiset(m.added)[c] + multiset(m.attached)[c] == 1
    ensures UniqueIds(m) && LiveIds(m) == LiveIds(l) - {gone.id}
  {}

  lemma RemovedOne(l: BL.Lists, id: nat) returns (gone: BL.Buffer)
    requires id in LiveIds(l)
    ensures IsLive(l, gone) && gone.id == id
    ensures var m := BL.Removed(l, id);
      multiset(l.added) + multiset(l.attached) == multiset(m.added) + multiset(m.attached) + multiset{gone}
  {
    var k, j := BL.Find(l.added, id), BL.Find(l.attached, id);
    assert k.Some? || j.Some?;
    gone := if k.Some? then l.added[k.value] else l.attached[j.value];
  }

  lemma CountsDecideMembership(l: BL.Lists, m: BL.Lists, gone: BL.Buffer, c: BL.Buffer)
    requires multiset(l.added) + multiset(l.attached) == multiset(m.added) + multiset(m.attached) + multiset{gone}
    requires multiset(l.added)[gone] + multiset(l.attached)[gone] == 1
    ensures multiset(m.added)[c] + multiset(m.attached)[c]
         == multiset(l.added)[c] + multiset(l.attached)[c] - if c == gone then 1 else 0
    ensures IsLive(m, c) <==> IsLive(l, c) && c != gone
  {
    var left := multiset(l.added) + multiset(l.attached);
    var right := multiset(m.added) + multiset(m.attached) + multiset{gone};
    assert left[c] == right[c];
    assert IsLive(m, c) <==> c in multiset(m.added) || c in multiset(m.attached);
    assert IsLive(l, c) <==> c in multiset(l.added) || c in multiset(l.attached);
  }

  /** The renderer thread's own steps do not change what is live. */
  lemma RendererStepsKeepLive(s: BL.State, step: BL.Action)
    requires UniqueIds(s.lists) && !BL.ByActivity(step) && BL.Next(s, step).Some?
    ensures var t := BL.Next(s, step).value; UniqueIds(t.lists) && LiveIds(t.lists) == LiveIds(s.lists)
  {
    var l, m := s.lists, BL.Next(s, step).value.lists;
    if step.Attach? {
      assert multiset(m.attached) == multiset(l.added) + multiset(l.attached);
      assert forall c :: c in m.attached <==> c in multiset(m.attached);
      assert forall c :: IsLive(l, c) <==> c in multiset(l.added) + multiset(l.attached);
      assert forall c :: IsLive(m, c) <==> IsLive(l, c);
    } else {
      assert m.added == l.added && m.attached == l.attached;
    }
  }

  lemma NothingLive(s: BL.State)
    ensures var t := BL.Next(s, BL.RemoveAll).value; LiveIds(t.lists) == {} && UniqueIds(t.lists)
  {
    var t := BL.Next(s, BL.RemoveAll).value;
    assert forall b :: !IsLive(t.lists, b);
  }

  lemma DeliverKeepsInv(s: State, t: State)
    requires Inv(s) && Next(s, Deliver) == Some(t)
    ensures Inv(t)
  {
    BL.StepKeepsInv(s.renderer, Receiving(s.channel[0]));
    DeliveredLive(s, t);
    DeliveredAgrees(s, t);
  }

  lemma DeliveredAgrees(s: State, t: State)
    requires s.activityOpen && (s.serverOpen ==> Agreement(s))
    requires Replay(LiveIds(s.renderer.lists), s.channel).Some?
    requires t.serverOpen == s.serverOpen && t.registered == s.registered
    requires Replay(LiveIds(t.renderer.lists), t.channel) == Replay(LiveIds(s.renderer.lists), s.channel)
    ensures (t.serverOpen ==> Agreement(t)) && Replay(LiveIds(t.renderer.lists), t.channel).Some?
  {}

  lemma DeliveredLive(s: State, t: State)
    requires Inv(s) && Next(s, Deliver) == Some(t)
    ensures UniqueIds(t.renderer.lists)
    ensures Replay(LiveIds(t.renderer.lists), t.channel) == Replay(LiveIds(s.renderer.lists), s.channel)
  {
    if s.channel[0].AddBuffer? {
      AddDelivered(s, t, s.channel[0].id);
    } else {
      RemoveDelivered(s, t, s.channel[0].id);
    }
  }

  lemma AddDelivered(s: State, t: State, id: nat)
    requires Inv(s) && Next(s, Deliver) == Some(t) && s.channel[0] == AddBuffer(id)
    ensures UniqueIds(t.renderer.lists) && LiveIds(t.renderer.lists) == LiveIds(s.renderer.lists) + {id}
  {
    ReceiveLive(s.renderer, id);
  }

  lemma RemoveDelivered(s: State, t: State, id: nat)
    requires Inv(s) && Next(s, Deliver) == Some(t) && s.channel[0] == RemoveBuffer(id)
    ensures UniqueIds(t.renderer.lists) && LiveIds(t.renderer.lists) == LiveIds(s.renderer.lists) - {id}
  {
    assert id in LiveIds(s.renderer.lists);
    RemoveLive(s.renderer.lists, id);
    assert t.renderer.lists == BL.Removed(s.renderer.lists, id);
  }

  lemma ServerKeepsInv(s: State, a: Action)
    requires Inv(s) && (a.Register? || a.Unregister? || a.ServerHangup?)
    ensures Inv(Next(s, a).value)
  {
    var t := Next(s, a).value;
    match a
    case Register(id) =>
      if t != s && s.activityOpen {
        ReplayOneMore(LiveIds(s.renderer.lists), s.channel, AddBuffer(id));
        assert RegisteredIds(t) == RegisteredIds(s) + {id};
      }
    case Unregister(id) =>
      if t != s && s.activityOpen {
        ReplayOneMore(LiveIds(s.renderer.lists), s.channel, RemoveBuffer(id));
        assert RegisteredIds(t) == RegisteredIds(s) - {id};
      }
    case _ =>
  }

  lemma StepKeepsInv(s: State, a: Action)
    requires Inv(s) && Next(s, a).Some?
    ensures Inv(Next(s, a).value)
  {
    match a
    case Deliver => DeliverKeepsInv(s, Next(s, a).value);
    case RendererStep(step) =>
      BL.StepKeepsInv(s.renderer, step);
      RendererStepsKeepLive(s.renderer, step);
    case ActivityHangup =>
      BL.StepKeepsInv(s.renderer, BL.RemoveAll);
      NothingLive(s.renderer);
    case Connect => assert RegisteredIds(Next(s, a).value) == {};
    case _ => ServerKeepsInv(s, a);
  }

  function Exec(acts: seq<Action>): Option<State> {
    if acts == [] then Some(Initial)
    else
      match Exec(acts[..|acts| - 1])
      case None => None
      case Some(s) => Next(s, acts[|acts| - 1])
  }

  /** On every run the two sides agree through the channel whenever the connection is up at both ends; in
      particular no message in flight is a duplicate ADD or a REMOVE of an unknown id. */
  lemma {:induction false} RegistryAgreement(acts: seq<Action>)
    requires Exec(acts).Some?
    ensures Inv(Exec(acts).value)
  {
    if acts != [] {
      var before := acts[..|acts| - 1];
      RegistryAgreement(before);
      StepKeepsInv(Exec(before).value, acts[|acts| - 1]);
    }
  }

  /** Once the channel is empty the live ids are the registered ids. */
  lemma QuietAgreement(acts: seq<Action>)
    requires Exec(acts).Some?
    ensures var s := Exec(acts).value;
      s.serverOpen && s.activityOpen && s.channel == [] ==> LiveIds(s.renderer.lists) == RegisteredIds(s)
  {
    RegistryAgreement(acts);
  }

  /** The activity reconnects while the server still has the old connection: connect_ and addFd. */
  function Reconnected(s: State): State {
    s.(serverOpen := true, activityOpen := true, channel := [],
       renderer := BL.Next(s.renderer, BL.RemoveAll).value)
  }

  /** Why a connection must be down before the next one: addFd does not forget what was registered, so after such a
      reconnect the two sides agree exactly when nothing was; and a registered root buffer is not sent again. */
  lemma ReconnectAgreesIffNothingRegistered(s: State, root: nat)
    ensures Agreement(Reconnected(s)) <==> s.registered == []
    ensures root in s.registered ==> Next(Reconnected(s), Register(root)) == Some(Reconnected(s))
  {
    var t := Reconnected(s);
    NothingLive(s.renderer);
    assert RegisteredIds(t) == RegisteredIds(s);
    if s.registered == [] {
      assert RegisteredIds(s) == {};
    } else {
      assert s.registered[0] in RegisteredIds(s);
    }
  }

  /** Such a reconnect: after one registration. */
  lemma ReconnectDisagrees(root: nat) returns (acts: seq<Action>)
    ensures Exec(acts).Some? && !Agreement(Reconnected(Exec(acts).value))
  {
    var first, s := [Connect], Next(Initial, Connect).value;
    acts := first + [Register(root)];
    assert first[..0] == [] && Exec(first) == Some(s);
    assert acts[..1] == first && acts[1] == Register(root);
    ReconnectAgreesIffNothingRegistered(Exec(acts).value, root);
  }
}
