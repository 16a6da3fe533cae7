/**
 The renderer's three buffer lists (`addedBuffers`, `buffers`, `removedBuffers`) and the reference counts that
 decide when a buffer is freed.  Every method of RendererBuffers is one critical section of `bufferLock`, so an
 interleaving of the activity thread and the renderer thread is a sequence of these operations.
 */
module BufferLists {
  import opened Options

  /** A LorieBuffer of the activity process.  `handle` stands for its address. */
  datatype Buffer = Buffer(handle: nat, id: nat, refs: int)

  /** The lists, in list order, and everything freed so far, in order. */
  datatype Lists = Lists(added: seq<Buffer>, attached: seq<Buffer>, removed: seq<Buffer>, freed: seq<Buffer>)

  function Reverse(s: seq<Buffer>): (r: seq<Buffer>)
    ensures multiset(r) == multiset(s) && |r| == |s|
  {
    if s == [] then []
    else
      assert s == [s[0]] + s[1..];
      Reverse(s[1..]) + [s[0]]
  }

  lemma MoveFirst(s: seq<Buffer>, t: seq<Buffer>)
    requires s != []
    ensures Reverse(s[1..]) + ([s[0]] + t) == Reverse(s) + t
  {}

  /** Index of the first buffer with this id. */
  function Find(s: seq<Buffer>, id: nat): (r: Option<nat>)
    ensures r.Some? ==> r.value < |s| && s[r.value].id == id
    ensures r.Some? <==> exists b :: b in s && b.id == id
  {
    if s == [] then None
    else if s[0].id == id then assert s[0] in s; Some(0)
    else
      assert forall b :: b in s <==> b == s[0] || b in s[1..];
      match Find(s[1..], id)
      case None => None
      case Some(k) => Some(k + 1)
  }

  function Without(s: seq<Buffer>, k: nat): (r: seq<Buffer>)
    requires k < |s|
    ensures multiset(r) + multiset{s[k]} == multiset(s)
  {
    assert s == s[..k] + [s[k]] + s[k + 1..];
    s[..k] + s[k + 1..]
  }

  function Added(l: Lists, b: Buffer): Lists { l.(added := [b] + l.added) }

  function Removed(l: Lists, id: nat): Lists {
    match Find(l.added, id)
    case Some(k) => l.(added := Without(l.added, k), freed := l.freed + [l.added[k]])
    case None =>
      match Find(l.attached, id)
      case Some(k) => l.(attached := Without(l.attached, k), removed := [l.attached[k]] + l.removed)
      case None => l
  }

  function AllRemoved(l: Lists): Lists {
    Lists([], [], Reverse(l.attached) + l.removed, l.freed + l.added)
  }

  function AllAttached(l: Lists): Lists { l.(added := [], attached := Reverse(l.added) + l.attached) }

  function Drained(l: Lists): Lists { l.(removed := [], freed := l.freed + l.removed) }

  /** The buffer rendererRedrawLocked picks for the requested root texture. */
  function Chosen(l: Lists, rootId: nat): (r: Option<Buffer>)
    ensures r.Some? ==> r.value.id == rootId && (r.value in l.attached || r.value in l.removed)
    ensures r.Some? <==> exists b :: (b in l.attached || b in l.removed) && b.id == rootId
    ensures r.Some? && (exists b :: b in l.attached && b.id == rootId) ==> r.value in l.attached
  {
    match Find(l.attached, rootId)
    case Some(k) => Some(l.attached[k])
    case None =>
      match Find(l.removed, rootId)
      case Some(k) => Some(l.removed[k])
      case None => None
  }

  class RendererBuffers {
    var added: seq<Buffer>
    var attached: seq<Buffer>
    var removed: seq<Buffer>
    var freed: seq<Buffer>

    ghost function Snapshot(): Lists reads this { Lists(added, attached, removed, freed) }

    /** No list holds an extra reference: a buffer arrives with count 1 and nobody acquires it. */
    ghost predicate Valid() reads this {
      forall b :: b in added || b in attached || b in removed ==> b.refs == 1
    }

    constructor ()
      ensures Valid() && Snapshot() == Lists([], [], [], [])
    {
      added, attached, removed, freed := [], [], [], [];
    }

    /** rendererAddBuffer */
    method AddBuffer(b: Buffer)
      requires Valid() && b.refs == 1
      modifies this
      ensures Valid() && Snapshot() == Added(old(Snapshot()), b)
    {
      added := [b] + added;
    }

    /** LorieBuffer_release on entry k of the added list. */
    method ReleaseAdded(k: nat)
      requires k < |added|
      modifies this`added, this`freed
      ensures var b := old(added)[k];
        if b.refs == 1 then added == Without(old(added), k) && freed == old(freed) + [b]
        else added == old(added)[k := b.(refs := b.refs - 1)] && freed == old(freed)
    {
      var b := added[k];
      if b.refs == 1 {
        added, freed := Without(added, k), freed + [b];
      } else {
        added := added[k := b.(refs := b.refs - 1)];
      }
    }

    /** LorieBuffer_release on the first entry of the removed list. */
    method ReleaseRemoved()
      requires removed != []
      modifies this`removed, this`freed
      ensures var b := old(removed)[0];
        if b.refs == 1 then removed == old(removed)[1..] && freed == old(freed) + [b]
        else removed == old(removed)[0 := b.(refs := b.refs - 1)] && freed == old(freed)
    {
      var b := removed[0];
      if b.refs == 1 {
        removed, freed := removed[1..], freed + [b];
      } else {
        removed := removed[0 := b.(refs := b.refs - 1)];
      }
    }

    /** rendererRemoveBuffer */
    method RemoveBuffer(id: nat)
      requires Valid()
      modifies this
      ensures Valid() && Snapshot() == Removed(old(Snapshot()), id)
    {
      var k := Find(added, id);
      if k.Some? {
        assert forall c :: c in Without(added, k.value) ==> c in multiset(added);
        ReleaseAdded(k.value);
      } else {
        k := Find(attached, id);
        if k.Some? {
          var b := attached[k.value];
          assert forall c :: c in Without(attached, k.value) ==> c in multiset(attached);
          attached, removed := Without(attached, k.value), [b] + removed;
        }
      }
    }

    /** rendererRemoveAllBuffers */
    method RemoveAllBuffers()
      requires Valid()
      modifies this
      ensures Valid() && Snapshot() == AllRemoved(old(Snapshot()))
    {
      ReleaseAllAdded();
      RetireAllAttached();
    }

    /** Its first loop: these buffers are not known to GL and can be released at once. */
    method ReleaseAllAdded()
      requires Valid()
      modifies this`added, this`freed
      ensures Valid() && added == [] && freed == old(freed + added)
    {
      while added != []
        invariant Valid() && freed + added == old(freed) + old(added)
        decreases |added|
      {
        ghost var all := added;
        ReleaseAdded(0);
        assert all == [all[0]] + all[1..];
      }
    }

    /** Its second loop: these must wait for the renderer thread. */
    method RetireAllAttached()
      requires Valid()
      modifies this`attached, this`removed
      ensures Valid() && attached == [] && removed == Reverse(old(attached)) + old(removed)
    {
      while attached != []
        invariant Valid() && Reverse(attached) + removed == Reverse(old(attached)) + old(removed)
        decreases |attached|
      {
        var b := attached[0];
        MoveFirst(attached, removed);
        attached, removed := attached[1..], [b] + removed;
      }
    }

    /** The attach loop of rendererThread. */
    method AttachAll()
      requires Valid()
      modifies this
      ensures Valid() && Snapshot() == AllAttached(old(Snapshot()))
    {
      while added != []
        invariant Valid() && removed == old(removed) && freed == old(freed)
        invariant Reverse(added) + attached == Reverse(old(added)) + old(attached)
        decreases |added|
      {
        var b := added[0];
        MoveFirst(added, attached);
        added, attached := added[1..], [b] + attached;
      }
    }

    /** The release loop of rendererThread. */
    method DrainRemoved()
      requires Valid()
      modifies this
      ensures Valid() && Snapshot() == Drained(old(Snapshot()))
    {
      while removed != []
        invariant Valid() && added == old(added) && attached == old(attached)
        invariant freed + removed == old(freed) + old(removed)
        decreases |removed|
      {
        ghost var all := removed;
        ReleaseRemoved();
        assert all == [all[0]] + all[1..];
      }
    }
  }

  // ----- all interleavings of the activity thread and the renderer thread -----

  /** The renderer loop: attach, perhaps draw, drain. */
  datatype RendererPc = Waiting | Attached | Drawing(buffer: Buffer) | Drawn

  datatype Action =
    | Receive(id: nat) | Remove(id: nat) | RemoveAll                      // activity thread
    | Attach | BeginDraw(rootId: nat) | SkipDraw | EndDraw | Drain        // renderer thread

  datatype State = State(lists: Lists, received: seq<Buffer>, pc: RendererPc)

  const Initial := State(Lists([], [], [], []), [], Waiting)

  /** A newly received buffer lives at an address not used by any earlier one. */
  function NewBuffer(s: State, id: nat): Buffer { Buffer(|s.received|, id, 1) }

  function Next(s: State, a: Action): Option<State> {
    match a
    case Receive(id) =>
      var b := NewBuffer(s, id);
      Some(s.(lists := Added(s.lists, b), received := s.received + [b]))
    case Remove(id) => Some(s.(lists := Removed(s.lists, id)))
    case RemoveAll => Some(s.(lists := AllRemoved(s.lists)))
    case Attach => if s.pc.Waiting? then Some(s.(lists := AllAttached(s.lists), pc := Attached)) else None
    case BeginDraw(rootId) =>
      if !s.pc.Attached? then None
      else
        var chosen := Chosen(s.lists, rootId);
        Some(s.(pc := if chosen.Some? then Drawing(chosen.value) else Drawn))
    case SkipDraw => if s.pc.Attached? then Some(s.(pc := Drawn)) else None
    case EndDraw => if s.pc.Drawing? then Some(s.(pc := Drawn)) else None
    case Drain => if s.pc.Drawn? then Some(s.(lists := Drained(s.lists), pc := Waiting)) else None
  }

  predicate ByActivity(a: Action) { a.Receive? || a.Remove? || a.RemoveAll? }

  /** Where every buffer is, with multiplicity. */
  function Everywhere(l: Lists): multiset<Buffer> {
    multiset(l.added) + multiset(l.attached) + multiset(l.removed) + multiset(l.freed)
  }

  predicate AliveInGL(l: Lists, b: Buffer) { b in l.attached || b in l.removed }

  ghost predicate Inv(s: State) {
    && (forall k :: 0 <= k < |s.received| ==> s.received[k].handle == k && s.received[k].refs == 1)
    && Everywhere(s.lists) == multiset(s.received)
    && (s.pc.Drawing? ==> AliveInGL(s.lists, s.pc.buffer))
  }

  // No operation loses or duplicates a buffer.

  lemma AddConserves(l: Lists, b: Buffer)
    ensures Everywhere(Added(l, b)) == Everywhere(l) + multiset{b}
  {}

  lemma RemoveConserves(l: Lists, id: nat)
    ensures Everywhere(Removed(l, id)) == Everywhere(l)
  {
    var k, j := Find(l.added, id), Find(l.attached, id);
    if k.Some? {
      assert multiset(l.freed + [l.added[k.value]]) == multiset(l.freed) + multiset{l.added[k.value]};
    } else if j.Some? {
      assert multiset([l.attached[j.value]] + l.removed) == multiset{l.attached[j.value]} + multiset(l.removed);
    }
  }

  lemma RemoveAllConserves(l: Lists)
    ensures Everywhere(AllRemoved(l)) == Everywhere(l)
  {}

  lemma AttachConserves(l: Lists)
    ensures Everywhere(AllAttached(l)) == Everywhere(l)
  {}

  lemma DrainConserves(l: Lists)
    ensures Everywhere(Drained(l)) == Everywhere(l)
  {}

  /** What the activity thread does never frees a buffer that GL knows, and never loses one. */
  lemma ActivityKeepsGLBuffers(s: State, a: Action, b: Buffer)
    requires ByActivity(a) && AliveInGL(s.lists, b)
    ensures Next(s, a).Some? && AliveInGL(Next(s, a).value.lists, b)
    ensures exists late: seq<Buffer> ::
              Next(s, a).value.lists.freed == s.lists.freed + late && multiset(late) <= multiset(s.lists.added)
  {
    var t := Next(s, a).value;
    match a
    case Receive(_) => assert t.lists.freed == s.lists.freed + [];
    case Remove(id) =>
      if Find(s.lists.added, id).Some? {
        assert multiset([s.lists.added[Find(s.lists.added, id).value]]) <= multiset(s.lists.added);
      } else {
        assert t.lists.freed == s.lists.freed + [];
        if Find(s.lists.attached, id).Some? && b in s.lists.attached {
          var k := Find(s.lists.attached, id).value;
          assert b in multiset(s.lists.attached);
          assert b == s.lists.attached[k] || b in multiset(Without(s.lists.attached, k));
        }
      }
    case RemoveAll =>
      assert b in s.lists.attached ==> b in multiset(Reverse(s.lists.attached));
      assert multiset(s.lists.added) <= multiset(s.lists.added);
    case _ =>
  }

  lemma StepKeepsInv(s: State, a: Action)
    requires Inv(s) && Next(s, a).Some?
    ensures Inv(Next(s, a).value)
  {
    match a
    case Receive(id) =>
      AddConserves(s.lists, NewBuffer(s, id));
      if s.pc.Drawing? { ActivityKeepsGLBuffers(s, a, s.pc.buffer); }
    case Remove(id) =>
      RemoveConserves(s.lists, id);
      if s.pc.Drawing? { ActivityKeepsGLBuffers(s, a, s.pc.buffer); }
    case RemoveAll =>
      RemoveAllConserves(s.lists);
      if s.pc.Drawing? { ActivityKeepsGLBuffers(s, a, s.pc.buffer); }
    case Attach => AttachConserves(s.lists);
    case Drain => DrainConserves(s.lists);
    case BeginDraw(_) =>
    case SkipDraw =>
    case EndDraw =>
  }

  /** A received buffer can be drawn after the next attaching. */
  lemma AttachedIsDrawable(l: Lists, b: Buffer)
    requires b in l.added
    ensures var m := AllAttached(l); m.added == [] && b in m.attached && Chosen(m, b.id).Some?
  {
    assert b in multiset(Reverse(l.added));
  }

  /** A buffer that is asked for and removed at once is displayed one last time: it can be drawn until the next
      drain. */
  lemma RemovedIsDrawable(l: Lists, id: nat)
    requires Find(l.added, id).None? && Find(l.attached, id).Some?
    ensures Chosen(Removed(l, id), id).Some?
  {
    var b := l.attached[Find(l.attached, id).value];
    assert b in Removed(l, id).removed && b.id == id;
  }

  /** A retired buffer is freed by the next drain. */
  lemma RetiredIsFreed(l: Lists, b: Buffer)
    requires b in l.removed
    ensures Drained(l).removed == [] && b in Drained(l).freed
  {}

  function Exec(acts: seq<Action>): Option<State> {
    if acts == [] then Some(Initial)
    else
      match Exec(acts[..|acts| - 1])
      case None => None
      case Some(s) => Next(s, acts[|acts| - 1])
  }

  lemma {:induction false} ReachableInv(acts: seq<Action>)
    requires Exec(acts).Some?
    ensures Inv(Exec(acts).value)
  {
    if acts != [] {
      var before := acts[..|acts| - 1];
      ReachableInv(before);
      StepKeepsInv(Exec(before).value, acts[|acts| - 1]);
    }
  }

  lemma {:induction false} HandlesDistinct(s: seq<Buffer>, b: Buffer)
    requires forall k :: 0 <= k < |s| ==> s[k].handle == k
    requires b in s
    ensures multiset(s)[b] == 1
  {
    var n := |s| - 1;
    assert s == s[..n] + [s[n]];
    if b == s[n] {
      assert b !in multiset(s[..n]);
    } else {
      HandlesDistinct(s[..n], b);
    }
  }

  /** In every interleaving, every received buffer is in exactly one list or was freed exactly once, nothing else
      is listed or freed, and the buffer being drawn is still alive. */
  lemma BufferLifetime(acts: seq<Action>)
    requires Exec(acts).Some?
    ensures var s := Exec(acts).value;
      && (forall b :: b in s.received ==>
            multiset(s.lists.added)[b] + multiset(s.lists.attached)[b] + multiset(s.lists.removed)[b]
            + multiset(s.lists.freed)[b] == 1)
      && (forall b :: b in Everywhere(s.lists) ==> b in s.received)
      && (s.pc.Drawing? ==> AliveInGL(s.lists, s.pc.buffer) && s.pc.buffer !in s.lists.freed)
  {
    ReachableInv(acts);
    var s := Exec(acts).value;
    forall b | b in s.received
      ensures Everywhere(s.lists)[b] == 1
    {
      HandlesDistinct(s.received, b);
    }
    if s.pc.Drawing? {
      var b := s.pc.buffer;
      assert b in Everywhere(s.lists);
      assert b in multiset(s.received);
      assert b in s.lists.freed ==> b in multiset(s.lists.freed);
      assert multiset(s.lists.attached)[b] + multiset(s.lists.removed)[b] >= 1;
    }
  }

  /** A GL buffer is freed by nothing but the renderer's own drain, and never while a redraw is under way. */
  lemma OnlyDrainFreesGLBuffers(s: State, a: Action, b: Buffer)
    requires Inv(s) && Next(s, a).Some? && AliveInGL(s.lists, b) && !AliveInGL(Next(s, a).value.lists, b)
    ensures a.Drain? && b in s.lists.removed && Next(s, a).value.lists.freed == s.lists.freed + s.lists.removed
    ensures s.pc.Drawn?
  {
    if ByActivity(a) {
      ActivityKeepsGLBuffers(s, a, b);
    } else if a.Attach? {
      assert b in s.lists.attached ==> b in Reverse(s.lists.added) + s.lists.attached;
    }
  }
}
