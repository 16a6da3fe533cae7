/**
 The emulated System V shared memory of shmem.c: a growable array of segments with in-place compaction, for private keys
 and segments of this process. Ids are 32-bit ints built from the process' socket number and a 15-bit counter. The map
 from id to segment is the reference definition.
 */
module ShmTable {
  import opened Options

  /** `addr` is 0 (NULL) while the segment is not attached. */
  datatype Segment = Segment(id: int, size: nat, descriptor: int, addr: nat, marked: bool)

  // ----- ids -----

  function ToInt32(x: int): int {
    var u := x % 0x1_0000_0000;
    if u < 0x8000_0000 then u else u - 0x1_0000_0000
  }

  /** ashv_shmid_from_counter */
  function ShmId(socket: nat, counter: nat): int { ToInt32(socket * 0x1_0000 + counter) }

  /** ashv_socket_id_from_shmid; C division truncates toward zero. */
  function SocketOf(shmid: int): int { if shmid >= 0 then shmid / 0x1_0000 else -((-shmid) / 0x1_0000) }

  function NextCounter(counter: nat): nat { (counter + 1) % 0x8000 }

  /** An id leads back to its socket number exactly when that has no 16th bit; ids of one socket are all different. */
  lemma SocketRoundTrip(socket: nat, counter: nat)
    requires socket < 0x1_0000 && counter < 0x8000
    ensures SocketOf(ShmId(socket, counter)) == socket <==> socket < 0x8000
    ensures forall other: nat :: other < 0x8000 && other != counter ==> ShmId(socket, other) != ShmId(socket, counter)
  {
    forall other: nat | other < 0x8000
      ensures ShmId(socket, other) == (if socket < 0x8000 then socket else socket - 0x1_0000) * 0x1_0000 + other
    {
      if socket < 0x8000 {
        assert (socket * 0x1_0000 + other) % 0x1_0000_0000 == socket * 0x1_0000 + other;
      }
    }
  }

  function CounterAfter(counter: nat, n: nat): nat {
    if n == 0 then counter else NextCounter(CounterAfter(counter, n - 1))
  }

  lemma {:induction false} CounterIsModular(counter: nat, n: nat)
    requires counter < 0x8000
    ensures CounterAfter(counter, n) == (counter + n) % 0x8000
  {
    if n > 0 {
      CounterIsModular(counter, n - 1);
      OneFurther(counter + n - 1);
    }
  }

  lemma OneFurther(x: nat)
    ensures NextCounter(x % 0x8000) == (x + 1) % 0x8000
  {}

  /** The ids of any 0x8000 successive calls of shmget are different. */
  lemma SuccessiveIdsDiffer(socket: nat, counter: nat, m: nat, n: nat)
    requires socket < 0x1_0000 && counter < 0x8000 && m < n < m + 0x8000
    ensures ShmId(socket, CounterAfter(counter, m)) != ShmId(socket, CounterAfter(counter, n))
  {
    CounterIsModular(counter, m);
    CounterIsModular(counter, n);
    ResiduesDiffer(counter + m, counter + n);
    SocketRoundTrip(socket, CounterAfter(counter, n));
  }

  lemma ResiduesDiffer(a: nat, b: nat)
    requires a < b < a + 0x8000
    ensures a % 0x8000 != b % 0x8000
  {
    var q, r := a / 0x8000, b / 0x8000;
    assert a == q * 0x8000 + a % 0x8000 && b == r * 0x8000 + b % 0x8000;
  }

  /** Sizes are rounded up to whole pages, by less than a page. */
  lemma RoundedToPages(size: nat, page: nat)
    requires page > 0
    ensures size <= RoundUp(size, page) < size + page && exists pages: nat :: Filled(RoundUp(size, page), pages, page)
  {
    var n := size + page - 1;
    assert n == n / page * page + n % page;
    assert Filled(RoundUp(size, page), n / page, page);
  }

  predicate Filled(size: nat, pages: nat, page: nat) { size == pages * page }

  // ----- the array's operations, on its contents -----

  /** Index of the first segment with that id, or -1. */
  function Find(s: seq<Segment>, id: int): (i: int)
    ensures -1 <= i < |s|
    ensures i >= 0 ==> s[i].id == id && forall j :: 0 <= j < i ==> s[j].id != id
    ensures i < 0 ==> forall j :: 0 <= j < |s| ==> s[j].id != id
  {
    if s == [] then -1
    else if s[0].id == id then 0
    else
      var i := Find(s[1..], id);
      assert forall j :: 0 < j < |s| ==> s[j] == s[1..][j - 1];
      if i < 0 then -1 else i + 1
  }

  function FindAddr(s: seq<Segment>, addr: nat): (i: int)
    ensures -1 <= i < |s|
    ensures i >= 0 ==> s[i].addr == addr && forall j :: 0 <= j < i ==> s[j].addr != addr
    ensures i < 0 ==> forall j :: 0 <= j < |s| ==> s[j].addr != addr
  {
    if s == [] then -1
    else if s[0].addr == addr then 0
    else
      var i := FindAddr(s[1..], addr);
      assert forall j :: 0 < j < |s| ==> s[j] == s[1..][j - 1];
      if i < 0 then -1 else i + 1
  }

  function Deleted(s: seq<Segment>, i: nat): seq<Segment> requires i < |s| { s[..i] + s[i + 1..] }

  function Attached(s: seq<Segment>, id: int, mapped: nat): seq<Segment> {
    var i := Find(s, id);
    if i >= 0 && s[i].addr == 0 then s[i := s[i].(addr := mapped)] else s
  }

  function Detached(s: seq<Segment>, addr: nat, socket: nat): seq<Segment> {
    var i := FindAddr(s, addr);
    if i < 0 then s
    else if s[i].marked || SocketOf(s[i].id) != socket then Deleted(s, i)
    else s[i := s[i].(addr := 0)]
  }

  function Removed(s: seq<Segment>, id: int): seq<Segment> {
    var i := Find(s, id);
    if i < 0 then s else if s[i].addr != 0 then s[i := s[i].(marked := true)] else Deleted(s, i)
  }

  // ----- the code -----

  class Shm {
    var table: array<Segment>
    var amount: nat
    var counter: nat
    var socket: nat
    var closed: seq<int>

    ghost predicate Valid() reads this { amount <= table.Length && counter < 0x8000 && socket < 0x1_0000 }

    ghost function Contents(): seq<Segment> requires Valid() reads this, table { table[..amount] }

    constructor (socketId: nat)
      requires socketId < 0x1_0000
      ensures Valid() && fresh(table) && Contents() == [] && counter == 0 && socket == socketId && closed == []
    {
      table := new Segment[0];
      amount, counter, socket, closed := 0, 0, socketId, [];
    }

    /** ashv_find_local_index */
    method FindLocalIndex(id: int) returns (idx: int)
      requires Valid()
      ensures idx == Find(Contents(), id)
    {
      var i := 0;
      while i < amount
        invariant 0 <= i <= amount
        invariant forall j :: 0 <= j < i ==> table[j].id != id
      {
        if table[i].id == id {
          assert Contents()[i].id == id;
          return i;
        }
        i := i + 1;
      }
      idx := -1;
    }

    /** android_shmem_delete: the segments behind the deleted one move up by one place. */
    method Delete(idx: nat)
      requires Valid() && idx < amount
      modifies this`amount, this`closed, table
      ensures Valid() && Contents() == Deleted(old(Contents()), idx)
      ensures var d := old(table[idx].descriptor); closed == if d != 0 then old(closed) + [d] else old(closed)
    {
      if table[idx].descriptor != 0 {
        closed := closed + [table[idx].descriptor];
      }
      amount := amount - 1;
      MoveUp(idx);
      assert Contents() == Deleted(old(Contents()), idx);
    }

    /** memmove of the entries behind idx. */
    method MoveUp(idx: nat)
      requires idx <= amount < table.Length
      modifies table
      ensures forall j :: 0 <= j < idx ==> table[j] == old(table[j])
      ensures forall j :: idx <= j < amount ==> table[j] == old(table[j + 1])
    {
      var i := idx;
      while i < amount
        invariant idx <= i <= amount
        invariant forall j :: 0 <= j < idx ==> table[j] == old(table[j])
        invariant forall j :: idx <= j < i ==> table[j] == old(table[j + 1])
        invariant forall j :: i <= j <= amount ==> table[j] == old(table[j])
      {
        table[i] := table[i + 1];
        i := i + 1;
      }
    }

    /** shmget for IPC_PRIVATE; `descriptor` is what ashmem_create_region returns. */
    method Get(size: nat, page: nat, descriptor: int) returns (shmid: int)
      requires Valid() && page > 0
      modifies this`table, this`amount, this`counter
      ensures Valid() && counter == NextCounter(old(counter))
      ensures fresh(table)
      ensures shmid == if descriptor < 0 then -1 else ShmId(socket, counter)
      ensures Contents() == if descriptor < 0 then old(Contents())
                            else old(Contents()) + [Segment(shmid, RoundUp(size, page), descriptor, 0, false)]
    {
      counter := NextCounter(counter);
      shmid := ShmId(socket, counter);
      var grown := new Segment[amount + 1](_ => Segment(0, 0, 0, 0, false));
      var i := 0;
      while i < amount
        invariant table == old(table) && amount == old(amount) <= table.Length && counter == NextCounter(old(counter))
        invariant 0 <= i <= amount && grown.Length == amount + 1
        invariant forall j :: 0 <= j < i ==> grown[j] == table[j]
      {
        grown[i] := table[i];
        i := i + 1;
      }
      grown[amount] := Segment(shmid, RoundUp(size, page), descriptor, 0, false);
      assert grown[..amount] == table[..amount];
      assert grown[..amount + 1] == table[..amount] + [grown[amount]];
      table := grown;
      if descriptor < 0 {
        return -1;
      }
      amount := amount + 1;
    }

    /** shmat on this process' table; `mapped` is what mmap returns, 0 when it fails. */
    method Attach(id: int, mapped: nat) returns (addr: Option<nat>)
      requires Valid()
      modifies table
      ensures Valid() && Contents() == Attached(old(Contents()), id, mapped)
      ensures var i := Find(Contents(), id);
        addr == if i < 0 || Contents()[i].addr == 0 then None else Some(Contents()[i].addr)
    {
      var idx := FindLocalIndex(id);
      if idx == -1 {
        return None;
      }
      ghost var before := Contents();
      if table[idx].addr == 0 {
        table[idx] := table[idx].(addr := mapped);
      }
      assert Contents() == Attached(before, id, mapped);
      assert Find(Contents(), id) == idx;
      addr := if table[idx].addr == 0 then None else Some(table[idx].addr);
    }

    /** What shmdt does with the segment it found. */
    method DetachAt(i: nat)
      requires Valid() && i < amount
      modifies this`amount, this`closed, table
      ensures Valid()
      ensures var s := old(Contents());
        Contents() == if s[i].marked || SocketOf(s[i].id) != socket then Deleted(s, i) else s[i := s[i].(addr := 0)]
    {
      ghost var before := Contents();
      table[i] := table[i].(addr := 0);
      assert Contents() == before[i := before[i].(addr := 0)];
      if table[i].marked || SocketOf(table[i].id) != socket {
        Delete(i);
        assert Contents() == Deleted(before, i);
      }
    }

    /** shmdt */
    method Detach(addr: nat)
      requires Valid()
      modifies this`amount, this`closed, table
      ensures Valid() && Contents() == Detached(old(Contents()), addr, socket)
    {
      var i := 0;
      while i < amount && table[i].addr != addr
        invariant 0 <= i <= amount
        invariant forall j :: 0 <= j < i ==> Contents()[j].addr != addr
      {
        i := i + 1;
      }
      if i < amount {
        assert FindAddr(Contents(), addr) == i by { assert Contents()[i].addr == addr; }
        DetachAt(i);
      }
    }

    /** shmctl with IPC_RMID */
    method Remove(id: int)
      requires Valid()
      modifies this`amount, this`closed, table
      ensures Valid() && Contents() == Removed(old(Contents()), id)
    {
      var idx := FindLocalIndex(id);
      if idx == -1 {
        return;
      }
      ghost var before := Contents();
      if table[idx].addr != 0 {
        table[idx] := table[idx].(marked := true);
        assert Contents() == before[idx := before[idx].(marked := true)];
      } else {
        Delete(idx);
      }
    }
  }

  function RoundUp(size: nat, page: nat): nat requires page > 0 { (size + page - 1) / page * page }

  // ----- the map behind the array -----

  type Live = map<int, Segment>

  predicate Distinct(s: seq<Segment>) { forall i, j :: 0 <= i < j < |s| ==> s[i].id != s[j].id }

  /** The array holds exactly the segments of the map, each once. */
  ghost predicate Refines(s: seq<Segment>, m: Live) {
    && Distinct(s)
    && (forall i :: 0 <= i < |s| ==> s[i].id in m && m[s[i].id] == s[i])
    && (forall id :: id in m ==> Find(s, id) >= 0)
  }

  /** A segment that waits for its removal is attached, and no two are attached at one address. */
  ghost predicate Sound(m: Live) {
    && (forall id :: id in m ==> m[id].id == id && (m[id].marked ==> m[id].addr != 0))
    && (forall a, b :: a in m && b in m && a != b && m[a].addr != 0 ==> m[a].addr != m[b].addr)
  }

  ghost function MapAttach(m: Live, id: int, mapped: nat): Live {
    if id in m && m[id].addr == 0 then m[id := m[id].(addr := mapped)] else m
  }

  /** Whatever is attached at the address is detached; it vanishes when it was marked, or when the process' socket
      number does not survive the way through an id. */
  ghost function MapDetach(m: Live, addr: nat, socket: nat): Live {
    map id | id in m && !(m[id].addr == addr && (m[id].marked || socket >= 0x8000)) ::
      if m[id].addr == addr then m[id].(addr := 0) else m[id]
  }

  ghost function MapRemove(m: Live, id: int): Live {
    if id !in m then m else if m[id].addr != 0 then m[id := m[id].(marked := true)] else m - {id}
  }

  predicate Local(s: seq<Segment>, socket: nat) {
    forall i :: 0 <= i < |s| ==> (SocketOf(s[i].id) == socket <==> socket < 0x8000)
  }

  lemma UpdateRefines(s: seq<Segment>, m: Live, i: nat, seg: Segment)
    requires Refines(s, m) && i < |s| && seg.id == s[i].id
    ensures Refines(s[i := seg], m[seg.id := seg])
  {
    var t := s[i := seg];
    forall id | id in m[seg.id := seg] ensures Find(t, id) >= 0 {
      var k := Find(s, id);
      assert t[k].id == id;
    }
  }

  /** Compaction takes out one entry and changes no other. */
  lemma DeleteRefines(s: seq<Segment>, m: Live, i: nat)
    requires Refines(s, m) && i < |s|
    ensures Refines(Deleted(s, i), m - {s[i].id})
  {
    var t := Deleted(s, i);
    forall id | id in m - {s[i].id} ensures Find(t, id) >= 0 {
      var k := Find(s, id);
      assert k < i ==> t[k].id == id;
      assert k > i ==> t[k - 1].id == id;
    }
  }

  lemma GetRefines(s: seq<Segment>, m: Live, seg: Segment)
    requires Refines(s, m)
    ensures seg.id !in m ==> Refines(s + [seg], m[seg.id := seg])
    ensures seg.id in m ==> !Distinct(s + [seg])
  {
    var t := s + [seg];
    if seg.id in m {
      assert t[Find(s, seg.id)].id == t[|s|].id;
    } else {
      forall id | id in m[seg.id := seg] ensures Find(t, id) >= 0 {
        assert t[if id == seg.id then |s| else Find(s, id)].id == id;
      }
    }
  }

  lemma AttachRefines(s: seq<Segment>, m: Live, id: int, mapped: nat)
    requires Refines(s, m)
    ensures Refines(Attached(s, id, mapped), MapAttach(m, id, mapped))
  {
    var i := Find(s, id);
    if i >= 0 && s[i].addr == 0 {
      UpdateRefines(s, m, i, s[i].(addr := mapped));
    }
  }

  lemma RemoveRefines(s: seq<Segment>, m: Live, id: int)
    requires Refines(s, m)
    ensures Refines(Removed(s, id), MapRemove(m, id))
  {
    var i := Find(s, id);
    if i >= 0 {
      if s[i].addr != 0 {
        UpdateRefines(s, m, i, s[i].(marked := true));
      } else {
        DeleteRefines(s, m, i);
      }
    }
  }

  lemma DetachRefines(s: seq<Segment>, m: Live, addr: nat, socket: nat)
    requires Refines(s, m) && Sound(m) && Local(s, socket) && addr != 0
    ensures Refines(Detached(s, addr, socket), MapDetach(m, addr, socket))
  {
    var i := FindAddr(s, addr);
    if i < 0 {
      NobodyThere(s, m, addr, socket);
    } else {
      OneThere(m, s[i].id, addr, socket);
      if s[i].marked || SocketOf(s[i].id) != socket {
        DeleteRefines(s, m, i);
      } else {
        UpdateRefines(s, m, i, s[i].(addr := 0));
      }
    }
  }

  lemma NobodyThere(s: seq<Segment>, m: Live, addr: nat, socket: nat)
    requires Refines(s, m) && FindAddr(s, addr) < 0
    ensures MapDetach(m, addr, socket) == m
  {
    forall id | id in m ensures m[id].addr != addr { assert s[Find(s, id)].addr != addr; }
  }

  lemma OneThere(m: Live, id: int, addr: nat, socket: nat)
    requires Sound(m) && id in m && m[id].addr == addr != 0
    ensures MapDetach(m, addr, socket)
         == if m[id].marked || socket >= 0x8000 then m - {id} else m[id := m[id].(addr := 0)]
  {
    assert forall k :: k in m && k != id ==> m[k].addr != addr;
  }

  // ----- all runs -----

  datatype State = State(segments: seq<Segment>, counter: nat)

  datatype Action =
    | DoGet(size: nat, descriptor: int)
    | DoAttach(id: int, mapped: nat)
    | DoDetach(addr: nat)
    | DoRemove(id: int)

  function Step(s: State, a: Action, socket: nat): State {
    match a
    case DoGet(size, descriptor) =>
      var c := NextCounter(s.counter);
      State(if descriptor < 0 then s.segments
            else s.segments + [Segment(ShmId(socket, c), size, descriptor, 0, false)], c)
    case DoAttach(id, mapped) => s.(segments := Attached(s.segments, id, mapped))
    case DoDetach(addr) => s.(segments := Detached(s.segments, addr, socket))
    case DoRemove(id) => s.(segments := Removed(s.segments, id))
  }

  ghost function MapStep(m: Live, counter: nat, a: Action, socket: nat): Live {
    match a
    case DoGet(size, descriptor) =>
      var id := ShmId(socket, NextCounter(counter));
      if descriptor < 0 then m else m[id := Segment(id, size, descriptor, 0, false)]
    case DoAttach(id, mapped) => MapAttach(m, id, mapped)
    case DoDetach(addr) => MapDetach(m, addr, socket)
    case DoRemove(id) => MapRemove(m, id)
  }

  /** What the callers and the kernel must respect: the counter has not come round to a live id, mmap returns no address
      that is in use, and shmdt is not given NULL. */
  ghost predicate Allowed(m: Live, counter: nat, a: Action, socket: nat) {
    match a
    case DoGet(_, _) => ShmId(socket, NextCounter(counter)) !in m
    case DoAttach(_, mapped) => mapped == 0 || forall id :: id in m ==> m[id].addr != mapped
    case DoDetach(addr) => addr != 0
    case DoRemove(_) => true
  }

  ghost predicate Inv(s: State, m: Live, socket: nat) {
    && s.counter < 0x8000 && socket < 0x1_0000
    && Refines(s.segments, m) && Sound(m) && Local(s.segments, socket)
  }

  lemma GetSound(s: State, m: Live, size: nat, descriptor: int, socket: nat)
    requires Inv(s, m, socket) && ShmId(socket, NextCounter(s.counter)) !in m
    ensures var a := DoGet(size, descriptor); Inv(Step(s, a, socket), MapStep(m, s.counter, a, socket), socket)
  {
    var c := NextCounter(s.counter);
    SocketRoundTrip(socket, c);
    var seg := Segment(ShmId(socket, c), size, descriptor, 0, false);
    GetRefines(s.segments, m, seg);
    InsertSound(m, seg);
  }

  lemma InsertSound(m: Live, seg: Segment)
    requires Sound(m) && seg.id !in m && !seg.marked && seg.addr == 0
    ensures Sound(m[seg.id := seg])
  {}

  lemma AttachSound(s: seq<Segment>, m: Live, id: int, mapped: nat, socket: nat)
    requires Refines(s, m) && Sound(m) && Local(s, socket)
    requires mapped == 0 || forall k :: k in m ==> m[k].addr != mapped
    ensures Sound(MapAttach(m, id, mapped)) && Local(Attached(s, id, mapped), socket)
  {}

  lemma DetachSound(s: seq<Segment>, m: Live, addr: nat, socket: nat)
    requires Sound(m) && Local(s, socket) && addr != 0
    ensures Sound(MapDetach(m, addr, socket)) && Local(Detached(s, addr, socket), socket)
  {}

  lemma RemoveSound(s: seq<Segment>, m: Live, id: int, socket: nat)
    requires Sound(m) && Local(s, socket)
    ensures Sound(MapRemove(m, id)) && Local(Removed(s, id), socket)
  {}

  /** Every operation does to the array what the reference does to the map, and keeps the map sound. */
  lemma StepRefines(s: State, m: Live, a: Action, socket: nat)
    requires Inv(s, m, socket) && Allowed(m, s.counter, a, socket)
    ensures Inv(Step(s, a, socket), MapStep(m, s.counter, a, socket), socket)
  {
    match a
    case DoGet(size, descriptor) => GetSound(s, m, size, descriptor, socket);
    case DoAttach(id, mapped) =>
      AttachRefines(s.segments, m, id, mapped);
      AttachSound(s.segments, m, id, mapped, socket);
    case DoDetach(addr) =>
      DetachRefines(s.segments, m, addr, socket);
      DetachSound(s.segments, m, addr, socket);
    case DoRemove(id) =>
      RemoveRefines(s.segments, m, id);
      RemoveSound(s.segments, m, id, socket);
  }

  /** A run: array states and maps side by side. */
  ghost predicate IsRun(run: seq<State>, maps: seq<Live>, acts: seq<Action>, socket: nat) {
    && |run| == |acts| + 1 && |maps| == |run|
    && forall i :: 0 <= i < |acts| ==>
      && Allowed(maps[i], run[i].counter, acts[i], socket)
      && run[i + 1] == Step(run[i], acts[i], socket) && maps[i + 1] == MapStep(maps[i], run[i].counter, acts[i], socket)
  }

  /** On every run from a state in which array and map agree, such as the empty one, they agree in every state; a marked
      segment is always attached. */
  lemma {:induction false} ArrayRefinesMap(run: seq<State>, maps: seq<Live>, acts: seq<Action>, socket: nat, k: nat)
    requires IsRun(run, maps, acts, socket) && Inv(run[0], maps[0], socket) && k < |run|
    ensures Inv(run[k], maps[k], socket)
  {
    if k > 0 {
      ArrayRefinesMap(run, maps, acts, socket, k - 1);
      assert Allowed(maps[k - 1], run[k - 1].counter, acts[k - 1], socket);
      StepRefines(run[k - 1], maps[k - 1], acts[k - 1], socket);
    }
  }

  // The condition on ids takes care of itself as long as the counter has not come round.

  /** What the callers and the kernel must respect apart from ids. */
  ghost predicate Proper(m: Live, a: Action) {
    match a
    case DoGet(_, _) => true
    case DoAttach(_, mapped) => mapped == 0 || forall id :: id in m ==> m[id].addr != mapped
    case DoDetach(addr) => addr != 0
    case DoRemove(_) => true
  }

  ghost predicate IsProperRun(run: seq<State>, maps: seq<Live>, acts: seq<Action>, socket: nat) {
    && |run| == |acts| + 1 && |maps| == |run|
    && forall i :: 0 <= i < |acts| ==>
      && Proper(maps[i], acts[i])
      && run[i + 1] == Step(run[i], acts[i], socket) && maps[i + 1] == MapStep(maps[i], run[i].counter, acts[i], socket)
  }

  function Gets(acts: seq<Action>): nat {
    if acts == [] then 0 else Gets(acts[..|acts| - 1]) + if acts[|acts| - 1].DoGet? then 1 else 0
  }

  /** Every live id came from one of the first `gets` calls. */
  ghost predicate Issued(m: Live, socket: nat, gets: nat) {
    forall id :: id in m ==> exists c: nat :: IssuedAt(id, socket, c, gets)
  }

  predicate IssuedAt(id: int, socket: nat, c: nat, gets: nat) {
    1 <= c <= gets && id == ShmId(socket, CounterAfter(0, c))
  }

  lemma StepIssues(m: Live, a: Action, socket: nat, gets: nat)
    requires Issued(m, socket, gets)
    ensures Issued(MapStep(m, CounterAfter(0, gets), a, socket), socket, if a.DoGet? then gets + 1 else gets)
  {
    var t, g := MapStep(m, CounterAfter(0, gets), a, socket), if a.DoGet? then gets + 1 else gets;
    forall id | id in t ensures exists c: nat :: IssuedAt(id, socket, c, g) {
      if id in m {
        var c: nat :| IssuedAt(id, socket, c, gets);
        assert IssuedAt(id, socket, c, g);
      } else {
        assert a.DoGet?;
        assert IssuedAt(id, socket, gets + 1, g);
      }
    }
  }

  lemma NextIsFree(m: Live, socket: nat, gets: nat)
    requires Issued(m, socket, gets) && gets < 0x8000 && socket < 0x1_0000
    ensures ShmId(socket, NextCounter(CounterAfter(0, gets))) !in m
  {
    var next := ShmId(socket, CounterAfter(0, gets + 1));
    forall c: nat ensures !IssuedAt(next, socket, c, gets) {
      NotIssued(socket, gets, c);
    }
  }

  lemma NotIssued(socket: nat, gets: nat, c: nat)
    requires gets < 0x8000 && socket < 0x1_0000
    ensures !IssuedAt(ShmId(socket, CounterAfter(0, gets + 1)), socket, c, gets)
  {
    if 1 <= c <= gets {
      SuccessiveIdsDiffer(socket, 0, c, gets + 1);
    }
  }

  lemma {:induction false} CountedRun(run: seq<State>, maps: seq<Live>, acts: seq<Action>, socket: nat, k: nat)
    requires IsProperRun(run, maps, acts, socket) && run[0] == State([], 0) && maps[0] == map[] && k <= |acts|
    ensures run[k].counter == CounterAfter(0, Gets(acts[..k])) && Issued(maps[k], socket, Gets(acts[..k]))
  {
    if k > 0 {
      CountedRun(run, maps, acts, socket, k - 1);
      assert acts[..k][..k - 1] == acts[..k - 1];
      assert run[k] == Step(run[k - 1], acts[k - 1], socket);
      assert maps[k] == MapStep(maps[k - 1], run[k - 1].counter, acts[k - 1], socket);
      StepIssues(maps[k - 1], acts[k - 1], socket, Gets(acts[..k - 1]));
    }
  }

  lemma {:induction false} GetsGrow(acts: seq<Action>, i: nat, k: nat)
    requires i < k <= |acts| && acts[i].DoGet?
    ensures Gets(acts[..i]) < Gets(acts[..k])
    decreases k
  {
    assert acts[..k][..k - 1] == acts[..k - 1];
    if i < k - 1 {
      GetsGrow(acts, i, k - 1);
    }
  }

  /** So array and map agree on every run from the empty table with at most 0x8000 calls of shmget. */
  lemma EarlyRunsAgree(run: seq<State>, maps: seq<Live>, acts: seq<Action>, socket: nat, k: nat)
    requires IsProperRun(run, maps, acts, socket) && run[0] == State([], 0) && maps[0] == map[]
    requires socket < 0x1_0000 && Gets(acts) <= 0x8000 && k < |run|
    ensures Inv(run[k], maps[k], socket)
  {
    forall i | 0 <= i < |acts| ensures Allowed(maps[i], run[i].counter, acts[i], socket) {
      assert Proper(maps[i], acts[i]);
      if acts[i].DoGet? {
        CountedRun(run, maps, acts, socket, i);
        assert acts[..|acts|] == acts;
        GetsGrow(acts, i, |acts|);
        NextIsFree(maps[i], socket, Gets(acts[..i]));
      }
    }
    EmptyAgrees(socket);
    ArrayRefinesMap(run, maps, acts, socket, k);
  }

  lemma EmptyAgrees(socket: nat)
    requires socket < 0x1_0000
    ensures Inv(State([], 0), map[], socket)
  {}

  /** A removed segment that is still attached at `addr`. */
  predicate Doomed(m: Live, id: int, seg: Segment) { id in m && m[id] == seg && seg.marked && seg.addr != 0 }

  lemma DoomedStays(m: Live, counter: nat, a: Action, socket: nat, id: int, seg: Segment)
    requires Sound(m) && Doomed(m, id, seg) && Allowed(m, counter, a, socket) && a != DoDetach(seg.addr)
    ensures Doomed(MapStep(m, counter, a, socket), id, seg)
  {
    match a
    case DoGet(_, _) => case DoAttach(_, _) => case DoDetach(_) => case DoRemove(_) =>
  }

  /** A removed segment stays as it is for as long as nobody detaches it, whatever happens to the others, and it
      vanishes at exactly that detach, alone. */
  lemma {:induction false} RemovedUntilDetach(
    run: seq<State>, maps: seq<Live>, acts: seq<Action>, socket: nat, k: nat, id: int, seg: Segment)
    requires IsRun(run, maps, acts, socket) && Inv(run[0], maps[0], socket) && k < |run|
    requires Doomed(maps[0], id, seg) && forall i :: 0 <= i < k ==> acts[i] != DoDetach(seg.addr)
    ensures Doomed(maps[k], id, seg) && Find(run[k].segments, id) >= 0
    ensures var m := MapDetach(maps[k], seg.addr, socket);
      id !in m && forall other :: other in maps[k] && other != id ==> other in m && m[other] == maps[k][other]
  {
    ArrayRefinesMap(run, maps, acts, socket, k);
    if k > 0 {
      RemovedUntilDetach(run, maps, acts, socket, k - 1, id, seg);
      ArrayRefinesMap(run, maps, acts, socket, k - 1);
      assert Allowed(maps[k - 1], run[k - 1].counter, acts[k - 1], socket);
      DoomedStays(maps[k - 1], run[k - 1].counter, acts[k - 1], socket, id, seg);
    }
  }

  /** Attaching gives an unattached segment the mapped address, leaves an attached one where it is, and touches no
      other. */
  lemma AttachActs(s: State, m: Live, id: int, mapped: nat, other: int, socket: nat)
    requires Inv(s, m, socket) && id in m
    ensures var t := Attached(s.segments, id, mapped);
      && Find(t, id) >= 0 && t[Find(t, id)] == m[id].(addr := if m[id].addr == 0 then mapped else m[id].addr)
      && (other != id ==> (Find(t, other) >= 0 <==> other in m) && (other in m ==> t[Find(t, other)] == m[other]))
  {
    AttachRefines(s.segments, m, id, mapped);
    var t, r := Attached(s.segments, id, mapped), MapAttach(m, id, mapped);
    assert id in r && r[id] == m[id].(addr := if m[id].addr == 0 then mapped else m[id].addr);
    assert Find(t, other) >= 0 <==> other in r;
  }

  /** Removing an id takes it out of the table at once if its segment is not attached; an attached one stays, marked. No
      other id is touched. */
  lemma RemoveActs(s: State, m: Live, id: int, other: int, socket: nat)
    requires Inv(s, m, socket) && id in m
    ensures var t := Removed(s.segments, id);
      && (Find(t, id) < 0 <==> m[id].addr == 0)
      && (m[id].addr != 0 ==> t[Find(t, id)] == m[id].(marked := true))
      && (other != id ==> (Find(t, other) >= 0 <==> other in m) && (other in m ==> t[Find(t, other)] == m[other]))
  {
    RemoveRefines(s.segments, m, id);
    var t, r := Removed(s.segments, id), MapRemove(m, id);
    assert Find(t, id) >= 0 <==> id in r;
    assert Find(t, other) >= 0 <==> other in r;
  }

  /** Detaching a segment nobody removed keeps it in the table exactly when the socket number is below 0x8000: with a
      larger one the process takes its own segments for foreign and drops them. */
  lemma DetachKeepsIff(s: State, m: Live, id: int, socket: nat)
    requires Inv(s, m, socket) && id in m && !m[id].marked && m[id].addr != 0
    ensures Find(Detached(s.segments, m[id].addr, socket), id) >= 0 <==> socket < 0x8000
  {
    DetachRefines(s.segments, m, m[id].addr, socket);
  }

  /** A process with socket number 0x8000 creates, attaches and detaches a segment, without removing it: it is gone. */
  method OwnSegmentDropped() returns (before: int, after: int)
    ensures before >= 0 && after == -1
  {
    var shm := new Shm(0x8000);
    var id := shm.Get(4096, 4096, 5);
    var addr := shm.Attach(id, 0x1000);
    before := shm.FindLocalIndex(id);
    ghost var contents := shm.Contents();
    SocketRoundTrip(0x8000, 1);
    assert id == ShmId(0x8000, 1) && contents == [Segment(id, 4096, 5, 0x1000, false)];
    shm.Detach(0x1000);
    assert shm.Contents() == [];
    after := shm.FindLocalIndex(id);
  }

  /** shmdt(NULL) hits the first segment that is not attached. It changes nothing exactly when there is none, or the
      socket number is below 0x8000. */
  lemma DetachNull(s: State, m: Live, socket: nat)
    requires Inv(s, m, socket)
    ensures Detached(s.segments, 0, socket) == s.segments <==> socket < 0x8000 || FindAddr(s.segments, 0) < 0
  {
    var i := FindAddr(s.segments, 0);
    if i >= 0 {
      assert s.segments[i].id in m;
      if socket < 0x8000 {
        assert s.segments[i := s.segments[i].(addr := 0)] == s.segments;
      }
    }
  }
}
