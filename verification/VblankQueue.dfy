/**
 The Present extension's vblank queue (InitOutput.c): events wait for a frame number (MSC) and are notified from the
 redraw that reaches it. Notification does not call back into the queue.
 */
module VblankQueue {
  datatype Vblank = Vblank(id: nat, msc: nat)

  /** present_event_notify for an event, at the current MSC. */
  datatype Notice = Notice(event: Vblank, at: nat)

  // ----- specification -----

  function Due(queue: seq<Vblank>, msc: nat): seq<Notice> {
    if queue == [] then []
    else (if queue[0].msc <= msc then [Notice(queue[0], msc)] else []) + Due(queue[1..], msc)
  }

  function Later(queue: seq<Vblank>, msc: nat): seq<Vblank> {
    if queue == [] then [] else (if queue[0].msc <= msc then [] else [queue[0]]) + Later(queue[1..], msc)
  }

  /** The queue without its first event of that id. */
  function WithoutFirst(queue: seq<Vblank>, id: nat): seq<Vblank> {
    if queue == [] then [] else if queue[0].id == id then queue[1..] else [queue[0]] + WithoutFirst(queue[1..], id)
  }

  function FirstWith(queue: seq<Vblank>, id: nat): multiset<Vblank> {
    if queue == [] then multiset{} else if queue[0].id == id then multiset{queue[0]} else FirstWith(queue[1..], id)
  }

  lemma TakeDue(q: seq<Vblank>, i: nat, msc: nat, notices: seq<Notice>)
    requires i < |q| && q[i].msc <= msc
    ensures var r := q[..i] + q[i + 1..];
      && r[..i] + Later(r[i..], msc) == q[..i] + Later(q[i..], msc)
      && (notices + [Notice(q[i], msc)]) + Due(r[i..], msc) == notices + Due(q[i..], msc)
  {
    var r := q[..i] + q[i + 1..];
    assert r[..i] == q[..i] && r[i..] == q[i..][1..];
  }

  lemma SkipLater(q: seq<Vblank>, i: nat, msc: nat)
    requires i < |q| && q[i].msc > msc
    ensures q[..i + 1] + Later(q[i + 1..], msc) == q[..i] + Later(q[i..], msc)
    ensures Due(q[i + 1..], msc) == Due(q[i..], msc)
  {
    assert q[i + 1..] == q[i..][1..] && q[..i + 1] == q[..i] + [q[i]];
  }

  // ----- the code -----

  class Screen {
    var msc: nat
    var queue: seq<Vblank>
    var notices: seq<Notice>

    constructor () ensures msc == 0 && queue == [] && notices == [] { msc, queue, notices := 0, [], []; }

    /** loriePresentQueueVblank; `room` says whether calloc succeeds. */
    method QueueVblank(id: nat, target: nat, room: bool) returns (ok: bool)
      modifies this`queue
      ensures ok == room && queue == if ok then [Vblank(id, target)] + old(queue) else old(queue)
    {
      if !room {
        return false;
      }
      queue := [Vblank(id, target)] + queue;
      ok := true;
    }

    /** loriePresentAbortVblank */
    method AbortVblank(id: nat)
      modifies this`queue
      ensures queue == WithoutFirst(old(queue), id)
    {
      var i := 0;
      while i < |queue|
        invariant 0 <= i <= |queue| && queue == old(queue)
        invariant queue[..i] + WithoutFirst(queue[i..], id) == WithoutFirst(queue, id)
      {
        if queue[i].id == id {
          queue := queue[..i] + queue[i + 1..];
          return;
        }
        assert queue[i..][1..] == queue[i + 1..] && queue[..i] + [queue[i]] == queue[..i + 1];
        i := i + 1;
      }
      assert queue[..i] == queue;
    }

    /** loriePerformVblanks */
    method PerformVblanks()
      modifies this`queue, this`notices
      ensures queue == Later(old(queue), msc) && notices == old(notices) + Due(old(queue), msc)
    {
      var i := 0;
      while i < |queue|
        invariant 0 <= i <= |queue|
        invariant queue[..i] + Later(queue[i..], msc) == Later(old(queue), msc)
        invariant notices + Due(queue[i..], msc) == old(notices) + Due(old(queue), msc)
        decreases |queue| - i
      {
        if queue[i].msc <= msc {
          TakeDue(queue, i, msc, notices);
          notices := notices + [Notice(queue[i], msc)];
          queue := queue[..i] + queue[i + 1..];
        } else {
          SkipLater(queue, i, msc);
          i := i + 1;
        }
      }
      assert queue[..i] == queue;
    }

    /** The start of lorieRedraw. */
    method Redraw()
      modifies this
      ensures msc == old(msc) + 1
      ensures queue == Later(old(queue), msc) && notices == old(notices) + Due(old(queue), msc)
    {
      msc := msc + 1;
      PerformVblanks();
    }
  }

  // ----- all runs -----

  /** The screen, and for the record the events ever queued and those aborted. */
  datatype State = State(
    msc: nat, queue: seq<Vblank>, notices: seq<Notice>, queued: multiset<Vblank>, aborted: multiset<Vblank>)

  const Initial := State(0, [], [], multiset{}, multiset{})

  datatype Action = Queue(event: Vblank) | Abort(id: nat) | Tick

  function Step(s: State, a: Action): State {
    match a
    case Queue(v) => s.(queue := [v] + s.queue, queued := s.queued + multiset{v})
    case Abort(id) => s.(queue := WithoutFirst(s.queue, id), aborted := s.aborted + FirstWith(s.queue, id))
    case Tick =>
      s.(msc := s.msc + 1, queue := Later(s.queue, s.msc + 1), notices := s.notices + Due(s.queue, s.msc + 1))
  }

  function Exec(s: State, acts: seq<Action>): State {
    if acts == [] then s else Step(Exec(s, acts[..|acts| - 1]), acts[|acts| - 1])
  }

  function Events(ns: seq<Notice>): multiset<Vblank> {
    if ns == [] then multiset{} else multiset{ns[0].event} + Events(ns[1..])
  }

  predicate Conserved(s: State) { s.queued == multiset(s.queue) + Events(s.notices) + s.aborted }

  ghost predicate OnTime(s: State) { forall n :: n in s.notices ==> n.event.msc <= n.at <= s.msc }

  lemma {:induction false} EventsConcat(a: seq<Notice>, b: seq<Notice>)
    ensures Events(a + b) == Events(a) + Events(b)
  {
    if a == [] {
      assert a + b == b;
    } else {
      assert (a + b)[1..] == a[1..] + b;
      EventsConcat(a[1..], b);
    }
  }

  lemma EventsCons(n: Notice, ns: seq<Notice>)
    ensures Events([n] + ns) == multiset{n.event} + Events(ns)
  {
    assert ([n] + ns)[1..] == ns;
  }

  lemma {:induction false} PerformSplits(queue: seq<Vblank>, msc: nat)
    ensures multiset(queue) == multiset(Later(queue, msc)) + Events(Due(queue, msc))
  {
    if queue != [] {
      var rest := queue[1..];
      PerformSplits(rest, msc);
      assert queue == [queue[0]] + rest;
      HeadSplits(queue[0], multiset(rest), multiset(Later(rest, msc)), Events(Due(rest, msc)));
      if queue[0].msc <= msc {
        EventsCons(Notice(queue[0], msc), Due(rest, msc));
        assert Later(queue, msc) == Later(rest, msc);
      } else {
        assert Due(queue, msc) == Due(rest, msc) && Later(queue, msc) == [queue[0]] + Later(rest, msc);
      }
    }
  }

  lemma HeadSplits(v: Vblank, all: multiset<Vblank>, later: multiset<Vblank>, due: multiset<Vblank>)
    requires all == later + due
    ensures multiset{v} + all == later + (multiset{v} + due) && multiset{v} + all == (multiset{v} + later) + due
  {}

  lemma {:induction false} AbortSplits(queue: seq<Vblank>, id: nat)
    ensures multiset(queue) == multiset(WithoutFirst(queue, id)) + FirstWith(queue, id)
  {
    if queue != [] {
      assert queue == [queue[0]] + queue[1..];
      AbortSplits(queue[1..], id);
    }
  }

  /** After a perform nothing due is left, and exactly the due events were notified. */
  lemma {:induction false} PerformTakesDue(queue: seq<Vblank>, msc: nat)
    ensures forall v :: v in Later(queue, msc) <==> v in queue && v.msc > msc
    ensures forall n :: n in Due(queue, msc) <==> n.at == msc && n.event in queue && n.event.msc <= msc
  {
    if queue != [] {
      PerformTakesDue(queue[1..], msc);
      assert forall v :: v in queue <==> v == queue[0] || v in queue[1..];
    }
  }

  lemma {:induction false} OthersKept(queue: seq<Vblank>, id: nat)
    ensures forall v :: v in queue && v.id != id ==> v in WithoutFirst(queue, id)
  {
    if queue != [] {
      OthersKept(queue[1..], id);
    }
  }

  lemma QueueConserves(s: State, v: Vblank)
    requires Conserved(s)
    ensures Conserved(Step(s, Queue(v)))
  {
    assert multiset([v] + s.queue) == multiset{v} + multiset(s.queue);
  }

  lemma AbortConserves(s: State, id: nat)
    requires Conserved(s)
    ensures Conserved(Step(s, Abort(id)))
  {
    AbortSplits(s.queue, id);
    var kept := multiset(WithoutFirst(s.queue, id));
    Regroup(multiset(s.queue), kept, FirstWith(s.queue, id), Events(s.notices), s.aborted);
  }

  lemma TickConserves(s: State)
    requires Conserved(s)
    ensures Conserved(Step(s, Tick))
  {
    var t := Step(s, Tick);
    assert t.queue == Later(s.queue, s.msc + 1) && t.notices == s.notices + Due(s.queue, s.msc + 1);
    assert t.aborted == s.aborted && t.queued == s.queued;
    PerformConserves(s.queue, s.notices, s.msc + 1, s.aborted);
  }

  lemma PerformConserves(queue: seq<Vblank>, notices: seq<Notice>, msc: nat, aborted: multiset<Vblank>)
    ensures multiset(queue) + Events(notices) + aborted
         == multiset(Later(queue, msc)) + Events(notices + Due(queue, msc)) + aborted
  {
    PerformSplits(queue, msc);
    EventsConcat(notices, Due(queue, msc));
    Regroup(multiset(queue), multiset(Later(queue, msc)), Events(Due(queue, msc)), Events(notices), aborted);
  }

  lemma Regroup(
    queue: multiset<Vblank>, kept: multiset<Vblank>, moved: multiset<Vblank>, a: multiset<Vblank>, b: multiset<Vblank>)
    requires queue == kept + moved
    ensures queue + a + b == kept + (a + moved) + b && queue + a + b == kept + a + (b + moved)
  {}

  lemma StepOnTime(s: State, a: Action)
    requires OnTime(s)
    ensures OnTime(Step(s, a))
  {
    if a.Tick? {
      PerformTakesDue(s.queue, s.msc + 1);
    }
  }

  /** On every run: every event queued is pending, notified or aborted, as often as it was queued; and none was notified
      before its MSC. */
  lemma {:induction false} NothingLostOrDoubled(acts: seq<Action>)
    ensures Conserved(Exec(Initial, acts)) && OnTime(Exec(Initial, acts))
  {
    if acts != [] {
      var before := Exec(Initial, acts[..|acts| - 1]);
      NothingLostOrDoubled(acts[..|acts| - 1]);
      StepOnTime(before, acts[|acts| - 1]);
      match acts[|acts| - 1]
      case Queue(v) => QueueConserves(before, v);
      case Abort(id) => AbortConserves(before, id);
      case Tick => TickConserves(before);
    }
  }

  function Ticks(acts: seq<Action>): nat {
    if acts == [] then 0 else Ticks(acts[..|acts| - 1]) + if acts[|acts| - 1].Tick? then 1 else 0
  }

  /** The redraw at which an event fires: its MSC, or the next redraw when that has already passed. */
  function FiresAt(v: Vblank, now: nat): nat { if v.msc > now then v.msc else now + 1 }

  /** The event is pending until redraw `fire`, and then notified at it. */
  ghost predicate OnSchedule(s: State, v: Vblank, fire: nat) {
    if s.msc < fire then v in s.queue else Notice(v, fire) in s.notices
  }

  lemma PendingStep(s: State, v: Vblank, fire: nat, a: Action)
    requires OnSchedule(s, v, fire) && v.msc <= fire && a != Abort(v.id)
    requires s.msc + 1 < fire ==> s.msc + 1 < v.msc
    ensures OnSchedule(Step(s, a), v, fire)
  {
    match a
    case Queue(w) =>
    case Abort(id) => OthersKept(s.queue, id);
    case Tick => PerformTakesDue(s.queue, s.msc + 1);
  }

  /** Whatever else is queued or aborted meanwhile, an event that is not aborted is pending until the redraw of its MSC
      and notified at exactly that redraw: for MSC m queued at c < m, the (m - c)-th one. */
  lemma {:induction false} FiresExactlyOnTime(s: State, v: Vblank, acts: seq<Action>)
    requires v in s.queue && forall i :: 0 <= i < |acts| ==> acts[i] != Abort(v.id)
    ensures var t := Exec(s, acts);
      t.msc == s.msc + Ticks(acts) && OnSchedule(t, v, FiresAt(v, s.msc))
  {
    if acts != [] {
      var front, a := acts[..|acts| - 1], acts[|acts| - 1];
      FiresExactlyOnTime(s, v, front);
      assert a != Abort(v.id);
      PendingStep(Exec(s, front), v, FiresAt(v, s.msc), a);
    }
  }

  /** An event queued once over a whole run has one notice at most, none while it is pending, and none once aborted. */
  lemma NotifiedAtMostOnce(acts: seq<Action>, v: Vblank)
    requires Exec(Initial, acts).queued[v] == 1
    ensures var s := Exec(Initial, acts);
      && Events(s.notices)[v] <= 1
      && (v in s.queue || v in s.aborted ==> Events(s.notices)[v] == 0)
      && (Events(s.notices)[v] == 0 && v !in s.aborted ==> v in s.queue)
  {
    NothingLostOrDoubled(acts);
    var s := Exec(Initial, acts);
    assert multiset(s.queue)[v] + Events(s.notices)[v] + s.aborted[v] == 1;
    assert v in s.queue <==> multiset(s.queue)[v] > 0;
  }

  // ----- abortion -----

  function Count(queue: seq<Vblank>, id: nat): nat {
    if queue == [] then 0 else (if queue[0].id == id then 1 else 0) + Count(queue[1..], id)
  }

  /** How often an id was queued. */
  function Uses(acts: seq<Action>, id: nat): nat {
    if acts == [] then 0
    else
      var a := acts[|acts| - 1];
      Uses(acts[..|acts| - 1], id) + if a.Queue? && a.event.id == id then 1 else 0
  }

  lemma {:induction false} CountLater(queue: seq<Vblank>, msc: nat, id: nat)
    ensures Count(Later(queue, msc), id) <= Count(queue, id)
  {
    if queue != [] {
      CountLater(queue[1..], msc, id);
      if queue[0].msc > msc {
        assert Later(queue, msc)[1..] == Later(queue[1..], msc);
      } else {
        assert Later(queue, msc) == Later(queue[1..], msc);
      }
    }
  }

  lemma {:induction false} CountWithoutFirst(queue: seq<Vblank>, id: nat, other: nat)
    ensures Count(WithoutFirst(queue, id), other)
         == if id == other && Count(queue, id) > 0 then Count(queue, id) - 1 else Count(queue, other)
  {
    if queue != [] && queue[0].id != id {
      CountWithoutFirst(queue[1..], id, other);
      assert WithoutFirst(queue, id)[1..] == WithoutFirst(queue[1..], id);
    }
  }

  lemma {:induction false} NoneCounted(queue: seq<Vblank>, id: nat)
    ensures Count(queue, id) == 0 <==> forall v :: v in queue ==> v.id != id
  {
    if queue != [] {
      NoneCounted(queue[1..], id);
      assert forall v :: v in queue <==> v == queue[0] || v in queue[1..];
    }
  }

  lemma CountStep(s: State, a: Action, id: nat)
    ensures Count(Step(s, a).queue, id) <= Count(s.queue, id) + if a.Queue? && a.event.id == id then 1 else 0
  {
    match a
    case Queue(v) => assert ([v] + s.queue)[1..] == s.queue;
    case Abort(other) => CountWithoutFirst(s.queue, other, id);
    case Tick => CountLater(s.queue, s.msc + 1, id);
  }

  lemma {:induction false} PendingAtMostUsed(acts: seq<Action>, id: nat)
    ensures Count(Exec(Initial, acts).queue, id) <= Uses(acts, id)
  {
    if acts != [] {
      PendingAtMostUsed(acts[..|acts| - 1], id);
      CountStep(Exec(Initial, acts[..|acts| - 1]), acts[|acts| - 1], id);
    }
  }

  /** While an id is neither pending nor queued again, nothing of that id is notified. */
  lemma {:induction false} SilentWithout(s: State, acts: seq<Action>, id: nat)
    requires Count(s.queue, id) == 0 && Uses(acts, id) == 0
    ensures var t := Exec(s, acts);
      Count(t.queue, id) == 0 && forall n :: n in t.notices && n.event.id == id ==> n in s.notices
  {
    if acts != [] {
      var front, a := acts[..|acts| - 1], acts[|acts| - 1];
      SilentWithout(s, front, id);
      CountStep(Exec(s, front), a, id);
      NoneCounted(Exec(s, front).queue, id);
      if a.Tick? {
        PerformTakesDue(Exec(s, front).queue, Exec(s, front).msc + 1);
      }
    }
  }

  /** When ids are used once: after an abort no event of that id is pending, and none is notified any more. */
  lemma AbortedIsSilent(acts: seq<Action>, id: nat, more: seq<Action>)
    requires Uses(acts, id) <= 1 && Uses(more, id) == 0
    ensures var s := Step(Exec(Initial, acts), Abort(id));
      var t := Exec(s, more);
      && (forall v :: v in s.queue ==> v.id != id) && (forall v :: v in t.queue ==> v.id != id)
      && (forall n :: n in t.notices && n.event.id == id ==> n in Exec(Initial, acts).notices)
  {
    var before := Exec(Initial, acts);
    var s := Step(before, Abort(id));
    PendingAtMostUsed(acts, id);
    CountWithoutFirst(before.queue, id, id);
    SilentWithout(s, more, id);
    NoneCounted(s.queue, id);
    NoneCounted(Exec(s, more).queue, id);
  }
}
