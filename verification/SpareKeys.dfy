/**
 Keysyms that no key produces are placed on spare keycodes: `addedKeysyms`, saveAddedKeysym, vncOnKeyUsed,
 getReusableKeycode and lorieAddKeysym.
 */
module SpareKeys {
  import opened Options
  import opened Keymap

  datatype AddedKeySym = AddedKeySym(keycode: KeyCode, keysym: KeySym)

  /** The keymap and the list of added keysyms, most recently used first. */
  datatype Pool = Pool(km: Keymap, added: seq<AddedKeySym>)

  /** The canonical type ALPHABETIC: level 2 under Shift or under Lock, but not both. */
  const Alphabetic := KeyType(ShiftMask | LockMask, [MapEntry(true, ShiftMask, 1), MapEntry(true, LockMask, 1)], None)

  function NewKey(km: Keymap, k: Key, sym: KeySym): Key {
    k.(types := [Alphabetic], width := 2, syms := [km.lower(sym), km.upper(sym)], actions := None, tName := true)
  }

  function Placed(km: Keymap, key: KeyCode, sym: KeySym): Keymap
    requires key < |km.keys|
  {
    km.(keys := km.keys[key := NewKey(km, km.keys[key], sym)])
  }

  lemma PlacedIsValid(km: Keymap, key: KeyCode, sym: KeySym)
    requires ValidKeymap(km) && key < 256
    ensures ValidKeymap(Placed(km, key, sym))
  {
    assert ValidKey(NewKey(km, km.keys[key], sym));
  }

  predicate Unused(km: Keymap, key: KeyCode)
    requires key < |km.keys|
  {
    |km.keys[key].types| == 0
  }

  /** The highest unused key at or below `from`, or 0. */
  function HighestUnused(km: Keymap, from: KeyCode): (key: KeyCode)
    requires ValidKeymap(km) && from <= km.maxKey
    ensures key == 0 || (InRange(km, key) && key <= from && Unused(km, key))
    ensures forall k :: km.minKey <= k <= from && key < k ==> !Unused(km, k)
  {
    if from < km.minKey then 0 else if Unused(km, from) then from else HighestUnused(km, from - 1)
  }

  /** The added key still carries what was put on it. */
  predicate Intact(km: Keymap, a: AddedKeySym)
    requires ValidKeymap(km)
  {
    InRange(km, a.keycode) && !Unused(km, a.keycode) && |km.keys[a.keycode].syms| > 0
    && km.keys[a.keycode].syms[0] == a.keysym && km.keys[a.keycode].tName
  }

  predicate Bytes(added: seq<AddedKeySym>) { forall i :: 0 <= i < |added| ==> added[i].keycode < 256 }

  /** What the code itself relies on; others may have edited the keymap. */
  ghost predicate Usable(p: Pool) { ValidKeymap(p.km) && Bytes(p.added) }

  /** Only this code edits the keymap: listed keycodes are distinct and intact. */
  ghost predicate ValidPool(p: Pool) {
    && Usable(p)
    && (forall i :: 0 <= i < |p.added| ==> Intact(p.km, p.added[i]))
    && (forall i, j :: 0 <= i < j < |p.added| ==> p.added[i].keycode != p.added[j].keycode)
  }

  function Position(added: seq<AddedKeySym>, key: KeyCode): (i: nat)
    ensures i <= |added|
    ensures i < |added| ==> added[i].keycode == key
    ensures forall j :: 0 <= j < i ==> added[j].keycode != key
  {
    if added == [] || added[0].keycode == key then 0 else 1 + Position(added[1..], key)
  }

  function MovedToFront(added: seq<AddedKeySym>, key: KeyCode): seq<AddedKeySym> {
    var i := Position(added, key);
    if i == |added| then added else [added[i]] + added[..i] + added[i + 1..]
  }

  /** Where entry j of the list came from when entry p was moved to the front. */
  function Source(p: nat, j: nat): nat { if j == 0 then p else if j <= p then j - 1 else j }

  lemma MovedAt(added: seq<AddedKeySym>, key: KeyCode, j: nat)
    requires Position(added, key) < |added| && j < |added|
    ensures |MovedToFront(added, key)| == |added|
    ensures MovedToFront(added, key)[j] == added[Source(Position(added, key), j)]
  {}

  function Used(p: Pool, key: KeyCode): Pool { p.(added := MovedToFront(p.added, key)) }

  /** Nobody else has modified the key. */
  predicate Untouched(km: Keymap, a: AddedKeySym)
    requires ValidKeymap(km) && a.keycode < 256
  {
    !Unused(km, a.keycode) && km.keys[a.keycode].syms[0] == a.keysym && km.keys[a.keycode].tName
  }

  /** The last untouched key and the entries before it; entries behind it are forgotten. */
  function Reused(km: Keymap, added: seq<AddedKeySym>): (r: (KeyCode, seq<AddedKeySym>))
    requires ValidKeymap(km) && Bytes(added)
    ensures r.0 < 256 && Bytes(r.1)
  {
    if added == [] then (0, [])
    else
      var n := |added| - 1;
      if Untouched(km, added[n]) && added[n].keycode != 0 then (added[n].keycode, added[..n])
      else Reused(km, added[..n])
  }

  /** Also when others edit the keymap: a reused key is untouched, and every entry used less recently was modified. */
  lemma {:induction false} ReusedIsOldestUntouched(km: Keymap, added: seq<AddedKeySym>) returns (n: nat)
    requires ValidKeymap(km) && Bytes(added)
    ensures n <= |added|
    ensures n == |added| ==> Reused(km, added) == (0, [])
    ensures n == |added| ==> forall a :: a in added ==> !Untouched(km, a) || a.keycode == 0
    ensures n < |added| ==>
      && Untouched(km, added[n]) && Reused(km, added) == (added[n].keycode, added[..n])
      && forall i :: n < i < |added| ==> !Untouched(km, added[i]) || added[i].keycode == 0
  {
    if added == [] {
      return 0;
    }
    n := |added| - 1;
    if !Untouched(km, added[n]) || added[n].keycode == 0 {
      n := ReusedIsOldestUntouched(km, added[..|added| - 1]);
      if n == |added| - 1 {
        n := |added|;
        assert added == added[..|added| - 1] + [added[|added| - 1]];
      } else {
        assert added[..|added| - 1][..n] == added[..n];
      }
    }
  }

  /** When nobody else edits the keymap, the reused key is that of the last entry. */
  lemma IntactReused(p: Pool)
    requires ValidPool(p)
    ensures Reused(p.km, p.added)
         == if p.added == [] then (0, []) else (p.added[|p.added| - 1].keycode, p.added[..|p.added| - 1])
  {
    if p.added != [] {
      assert Intact(p.km, p.added[|p.added| - 1]);
    }
  }

  /** Where a new keysym goes: the highest unused key, else a reused one, else nowhere. */
  function Home(p: Pool): (key: KeyCode)
    requires Usable(p)
  {
    var spare := HighestUnused(p.km, p.km.maxKey);
    if spare != 0 then spare else Reused(p.km, p.added).0
  }

  function Kept(p: Pool): seq<AddedKeySym>
    requires Usable(p)
  {
    if HighestUnused(p.km, p.km.maxKey) != 0 then p.added else Reused(p.km, p.added).1
  }

  function WithSym(p: Pool, sym: KeySym): Pool
    requires Usable(p)
  {
    var key := Home(p);
    if key == 0 then p.(added := Kept(p))
    else Pool(Placed(p.km, key, sym), [AddedKeySym(key, p.km.lower(sym))] + Kept(p))
  }

  lemma WithSymIsUsable(p: Pool, sym: KeySym)
    requires Usable(p)
    ensures Usable(WithSym(p, sym))
  {
    if Home(p) != 0 {
      PlacedIsValid(p.km, Home(p), sym);
    }
  }

  lemma UsedIsUsable(p: Pool, key: KeyCode)
    requires Usable(p)
    ensures Usable(Used(p, key))
  {}

  lemma WithSymIsValid(p: Pool, sym: KeySym)
    requires ValidPool(p)
    ensures ValidPool(WithSym(p, sym))
  {
    IntactReused(p);
    var key, q := Home(p), WithSym(p, sym);
    if key != 0 {
      if HighestUnused(p.km, p.km.maxKey) == 0 {
        assert Intact(p.km, p.added[|p.added| - 1]);
      }
      PlacedIsValid(p.km, key, sym);
      forall i | 0 <= i < |q.added| ensures Intact(q.km, q.added[i]) {
        if i > 0 {
          assert q.added[i] == p.added[i - 1];
          assert Intact(p.km, p.added[i - 1]);
        }
      }
    }
  }

  lemma UsedIsValid(p: Pool, key: KeyCode)
    requires ValidPool(p)
    ensures ValidPool(Used(p, key))
  {
    var i, q := Position(p.added, key), Used(p, key);
    if i < |p.added| {
      forall j | 0 <= j < |q.added| ensures q.added[j] == p.added[Source(i, j)] {
        MovedAt(p.added, key, j);
      }
    }
  }

  class KeymapEditor {
    var km: Keymap
    var added: seq<AddedKeySym>

    ghost function View(): Pool reads this { Pool(km, added) }

    constructor (km: Keymap)
      requires ValidKeymap(km)
      ensures View() == Pool(km, []) && ValidPool(View())
    {
      this.km, added := km, [];
    }

    /** vncOnKeyUsed */
    method OnKeyUsed(usedKeycode: KeyCode)
      modifies this`added
      ensures View() == Used(old(View()), usedKeycode)
    {
      if added == [] || added[0].keycode == usedKeycode {
        if added != [] {
          assert MovedToFront(added, usedKeycode) == added;
        }
        return;
      }
      var i := 0;
      while i < |added|
        invariant i <= |added| && added == old(added)
        invariant forall j :: 0 <= j < i ==> added[j].keycode != usedKeycode
      {
        if added[i].keycode == usedKeycode {
          assert Position(added, usedKeycode) == i;
          added := [added[i]] + added[..i] + added[i + 1..];
          return;
        }
        i := i + 1;
      }
    }

    /** getReusableKeycode */
    method ReusableKeycode() returns (result: KeyCode)
      requires ValidKeymap(km) && Bytes(added)
      modifies this`added
      ensures (result, added) == Reused(km, old(added))
    {
      result := 0;
      while result == 0 && added != []
        invariant Bytes(added)
        invariant Reused(km, old(added)) == if result == 0 then Reused(km, added) else (result, added)
        decreases |added|
      {
        var last := added[|added| - 1];
        if Untouched(km, last) {
          result := last.keycode;
        }
        added := added[..|added| - 1];
      }
    }

    /** lorieAddKeysym */
    method AddKeysym(sym: KeySym) returns (key: KeyCode)
      requires Usable(View())
      modifies this
      ensures key == Home(old(View())) && View() == WithSym(old(View()), sym)
    {
      key := km.maxKey;
      while key >= km.minKey && |km.keys[key].types| != 0
        invariant km.minKey - 1 <= key <= km.maxKey
        invariant HighestUnused(km, km.maxKey) == HighestUnused(km, key)
      {
        key := key - 1;
      }
      if key < km.minKey {
        key := ReusableKeycode();
      }
      if key == 0 {
        return;
      }
      var lower, upper := km.lower(sym), km.upper(sym);
      var k := km.keys[key].(types := [Alphabetic], width := 2, syms := [lower, upper], actions := None, tName := true);
      km := km.(keys := km.keys[key := k]);
      added := [AddedKeySym(key, k.syms[0])] + added;
    }
  }

  // ----- least recently used, over all runs -----

  datatype Op = Press(key: KeyCode) | Add(sym: KeySym)

  /** The pool and, per operation so far, the keycode it touched. */
  datatype Run = Run(pool: Pool, touched: seq<KeyCode>)

  function Do(r: Run, op: Op): Run
    requires Usable(r.pool)
  {
    match op
    case Press(key) => Run(Used(r.pool, key), r.touched + [key])
    case Add(sym) => Run(WithSym(r.pool, sym), r.touched + [Home(r.pool)])
  }

  lemma DoIsValid(r: Run, op: Op)
    requires ValidPool(r.pool)
    ensures ValidPool(Do(r, op).pool)
  {
    match op
    case Press(key) => UsedIsValid(r.pool, key);
    case Add(sym) => WithSymIsValid(r.pool, sym);
  }

  ghost function Exec(km: Keymap, ops: seq<Op>): (r: Run)
    requires ValidKeymap(km)
    ensures ValidPool(r.pool)
  {
    if ops == [] then Run(Pool(km, []), [])
    else
      var before := Exec(km, ops[..|ops| - 1]);
      DoIsValid(before, ops[|ops| - 1]);
      Do(before, ops[|ops| - 1])
  }

  /** When a keycode was last touched: 1 + its last index, 0 if never. */
  function LastTouch(touched: seq<KeyCode>, key: KeyCode): (n: nat)
    ensures n <= |touched|
    ensures n > 0 ==> touched[n - 1] == key
    ensures forall i :: n <= i < |touched| ==> touched[i] != key
  {
    if touched == [] then 0
    else if touched[|touched| - 1] == key then |touched|
    else LastTouch(touched[..|touched| - 1], key)
  }

  /** The list is ordered by last touch, latest first. */
  ghost predicate Ordered(added: seq<AddedKeySym>, touched: seq<KeyCode>) {
    forall i, j :: 0 <= i < j < |added| ==>
      LastTouch(touched, added[i].keycode) > LastTouch(touched, added[j].keycode)
  }

  lemma TouchOneMore(touched: seq<KeyCode>, k: KeyCode, key: KeyCode)
    ensures LastTouch(touched + [k], key) == if k == key then |touched| + 1 else LastTouch(touched, key)
  {
    assert (touched + [k])[..|touched|] == touched;
  }

  lemma PressKeepsOrder(r: Run, key: KeyCode)
    requires ValidPool(r.pool) && Ordered(r.pool.added, r.touched)
    ensures Ordered(Do(r, Press(key)).pool.added, Do(r, Press(key)).touched)
  {
    var a, b := r.pool.added, MovedToFront(r.pool.added, key);
    forall i, j | 0 <= i < j < |b|
      ensures LastTouch(r.touched + [key], b[i].keycode) > LastTouch(r.touched + [key], b[j].keycode)
    {
      MovedPairOrdered(r, key, i, j);
    }
  }

  lemma MovedPairOrdered(r: Run, key: KeyCode, i: nat, j: nat)
    requires ValidPool(r.pool) && Ordered(r.pool.added, r.touched)
    requires i < j < |MovedToFront(r.pool.added, key)|
    ensures var b := MovedToFront(r.pool.added, key);
      LastTouch(r.touched + [key], b[i].keycode) > LastTouch(r.touched + [key], b[j].keycode)
  {
    var a, b, p := r.pool.added, MovedToFront(r.pool.added, key), Position(r.pool.added, key);
    TouchOneMore(r.touched, key, b[i].keycode);
    TouchOneMore(r.touched, key, b[j].keycode);
    if p < |a| {
      MovedAt(a, key, i);
      MovedAt(a, key, j);
      assert a[Source(p, j)].keycode != a[p].keycode;
    }
  }

  lemma NewestFirst(added: seq<AddedKeySym>, touched: seq<KeyCode>, newest: AddedKeySym)
    requires Ordered(added, touched) && forall i :: 0 <= i < |added| ==> added[i].keycode != newest.keycode
    ensures Ordered([newest] + added, touched + [newest.keycode])
  {
    var b := [newest] + added;
    forall i | 0 <= i < |b|
      ensures LastTouch(touched + [newest.keycode], b[i].keycode)
           == if i == 0 then |touched| + 1 else LastTouch(touched, added[i - 1].keycode)
    {
      TouchOneMore(touched, newest.keycode, b[i].keycode);
    }
  }

  lemma AddKeepsOrder(r: Run, sym: KeySym)
    requires ValidPool(r.pool) && Ordered(r.pool.added, r.touched)
    ensures Ordered(Do(r, Add(sym)).pool.added, Do(r, Add(sym)).touched)
  {
    var key, kept := Home(r.pool), Kept(r.pool);
    IntactReused(r.pool);
    if key != 0 {
      AddedElsewhere(r.pool, sym);
      NewestFirst(kept, r.touched, AddedKeySym(key, r.pool.km.lower(sym)));
    }
  }

  /** The keys kept at an addition are not the one just used. */
  lemma AddedElsewhere(p: Pool, sym: KeySym)
    requires ValidPool(p) && Home(p) != 0
    ensures forall i :: 0 <= i < |Kept(p)| ==> Kept(p)[i].keycode != Home(p)
  {
    WithSymIsValid(p, sym);
    var b := WithSym(p, sym).added;
    forall i | 0 <= i < |Kept(p)| ensures Kept(p)[i].keycode != Home(p) {
      assert b[i + 1] == Kept(p)[i] && b[0].keycode == Home(p);
    }
  }

  lemma {:induction false} AlwaysOrdered(km: Keymap, ops: seq<Op>)
    requires ValidKeymap(km)
    ensures var r := Exec(km, ops); Ordered(r.pool.added, r.touched)
  {
    if ops != [] {
      var before, op := ops[..|ops| - 1], ops[|ops| - 1];
      AlwaysOrdered(km, before);
      match op
      case Press(key) => PressKeepsOrder(Exec(km, before), key);
      case Add(sym) => AddKeepsOrder(Exec(km, before), sym);
    }
  }

  /** On every run: an added key is given up only when no keycode is unused, and then it is the one whose last press
      or addition lies furthest back. */
  lemma EvictionIsLeastRecentlyUsed(km: Keymap, ops: seq<Op>, sym: KeySym, victim: AddedKeySym)
    requires ValidKeymap(km)
    requires var p := Exec(km, ops).pool;
      victim in p.added && forall a :: a in WithSym(p, sym).added[1..] ==> a != victim
    requires Home(Exec(km, ops).pool) != 0
    ensures var r := Exec(km, ops);
      && (forall k :: InRange(r.pool.km, k) ==> !Unused(r.pool.km, k))
      && Home(r.pool) == victim.keycode
      && (forall a :: a in r.pool.added && a != victim ==>
            LastTouch(r.touched, a.keycode) > LastTouch(r.touched, victim.keycode))
  {
    AlwaysOrdered(km, ops);
    VictimIsLast(Exec(km, ops).pool, sym, victim);
  }

  lemma VictimIsLast(p: Pool, sym: KeySym, victim: AddedKeySym)
    requires ValidPool(p) && Home(p) != 0
    requires victim in p.added && forall a :: a in WithSym(p, sym).added[1..] ==> a != victim
    ensures HighestUnused(p.km, p.km.maxKey) == 0 && victim == p.added[|p.added| - 1] && Home(p) == victim.keycode
  {
    IntactReused(p);
    var kept := WithSym(p, sym).added[1..];
    assert kept == Kept(p);
    assert kept == p.added[..|p.added| - 1];
    LastOrBefore(p.added, victim);
  }

  lemma LastOrBefore(a: seq<AddedKeySym>, x: AddedKeySym)
    requires x in a
    ensures x == a[|a| - 1] || x in a[..|a| - 1]
  {
    assert a == a[..|a| - 1] + [a[|a| - 1]];
  }

  // ----- a placed keysym is found again -----

  predicate SecondLevel(mods: Mods) {
    mods & (ShiftMask | LockMask) == ShiftMask || mods & (ShiftMask | LockMask) == LockMask
  }

  lemma AlphabeticLevel(mods: Mods)
    ensures Level(Alphabetic, mods) == if SecondLevel(mods) then 1 else 0
  {
    assert |Alphabetic.entries| == 2;
    assert Matches(Alphabetic, mods, 0) <==> mods & (ShiftMask | LockMask) == ShiftMask;
    assert Matches(Alphabetic, mods, 1) <==> mods & (ShiftMask | LockMask) == LockMask;
  }

  lemma PlacedProduces(km: Keymap, key: KeyCode, sym: KeySym, s: KeyboardState, x: KeySym)
    requires ValidKeymap(km) && InRange(km, key)
    ensures ValidKeymap(Placed(km, key, sym))
    ensures Produces(Placed(km, key, sym), key, s, x)
       <==> x != NoSymbol && x == if SecondLevel(s.mods) then km.upper(sym) else km.lower(sym)
  {
    PlacedIsValid(km, key, sym);
    AlphabeticLevel(s.mods);
    var k := Placed(km, key, sym).keys[key];
    assert EffectiveGroup(k, s.group) == 0;
    assert Consumed(k, s) == ShiftMask | LockMask;
    assert s.mods & !(ShiftMask | LockMask) & LockMask == 0;
    assert Column(k, s) == Level(Alphabetic, s.mods);
  }

  lemma ShiftChangesLevel(mods: Mods)
    ensures SecondLevel(Toggled(mods, ShiftMask)) <==> !SecondLevel(mods)
  {}

  lemma OthersUnchanged(km: Keymap, key: KeyCode, sym: KeySym, s: KeyboardState, x: KeySym)
    requires ValidKeymap(km) && InRange(km, key)
    ensures ValidKeymap(Placed(km, key, sym))
    ensures forall k :: InRange(km, k) && k != key ==>
              (Produces(Placed(km, key, sym), k, s, x) <==> Produces(km, k, s, x))
  {
    PlacedIsValid(km, key, sym);
  }

  lemma BestAfterPlacing(km: Keymap, key: KeyCode, sym: KeySym, s: KeyboardState)
    requires ValidKeymap(km) && InRange(km, key) && NoneProduces(km, sym, s)
    ensures ValidKeymap(Placed(km, key, sym))
    ensures Best(Placed(km, key, sym), sym, s)
         == if Produces(Placed(km, key, sym), key, s, sym) then key else 0
  {
    PlacedIsValid(km, key, sym);
    OthersUnchanged(km, key, sym, s, sym);
    var km' := Placed(km, key, sym);
    BestIsUnique(km', sym, s, Best(km', sym, s), if Produces(km', key, s, sym) then key else 0);
  }

  lemma PlacedBest(km: Keymap, key: KeyCode, sym: KeySym, s: KeyboardState)
    requires ValidKeymap(km) && InRange(km, key) && NoneProduces(km, sym, s)
    ensures ValidKeymap(Placed(km, key, sym))
    ensures Best(Placed(km, key, sym), sym, s)
         == if sym != NoSymbol && sym == (if SecondLevel(s.mods) then km.upper(sym) else km.lower(sym)) then key else 0
  {
    PlacedProduces(km, key, sym, s, sym);
    BestAfterPlacing(km, key, sym, s);
  }

  /** A keysym no key produced is, once placed, found under the current state or with Shift toggled exactly when it
      is a real symbol that equals its own lower or upper case; and then on the key it was placed on. */
  lemma PlacedSymbolFound(km: Keymap, key: KeyCode, sym: KeySym, s: KeyboardState)
    requires ValidKeymap(km) && InRange(km, key)
    requires NoneProduces(km, sym, s) && NoneProduces(km, sym, s.(mods := Toggled(s.mods, ShiftMask)))
    ensures ValidKeymap(Placed(km, key, sym))
    ensures var km', t := Placed(km, key, sym), s.(mods := Toggled(s.mods, ShiftMask));
      && ((Best(km', sym, s) != 0 || Best(km', sym, t) != 0) <==>
          OwnCase(km, sym))
      && (Best(km', sym, s) != 0 ==> IsAnswer(km', sym, s, key, s))
      && (Best(km', sym, s) == 0 && Best(km', sym, t) != 0 ==> IsAnswer(km', sym, s, key, t))
  {
    var km', t := Placed(km, key, sym), s.(mods := Toggled(s.mods, ShiftMask));
    PlacedBest(km, key, sym, s);
    PlacedBest(km, key, sym, t);
    ShiftChangesLevel(s.mods);
    FirstTwoAnswers(km', sym, s);
  }

  predicate OwnCase(km: Keymap, sym: KeySym) { sym != NoSymbol && (sym == km.lower(sym) || sym == km.upper(sym)) }

  /** The whole search after a keysym was placed: if no key of the map before produced it in any of the states that are
      tried, it finds a key if and only if the keysym is a real symbol that equals its own lower or upper case. */
  lemma PlacedSymbolAnswer(km: Keymap, key: KeyCode, sym: KeySym, s: KeyboardState)
    requires ValidKeymap(km) && InRange(km, key) && ValidKeymap(Placed(km, key, sym))
    requires forall c :: c in Candidates(Placed(km, key, sym), s) ==> NoneProduces(km, sym, c)
    ensures NoAnswer(Placed(km, key, sym), sym, s) <==> !OwnCase(km, sym)
  {
    var km' := Placed(km, key, sym);
    var cs := Candidates(km', s);
    if OwnCase(km, sym) {
      var t := s.(mods := Toggled(s.mods, ShiftMask));
      assert s == cs[0] && t == cs[1];
      PlacedSymbolFound(km, key, sym, s);
      AnswerZero(km', sym, s, key, if Best(km', sym, s) != 0 then s else t);
    } else {
      forall i | 0 <= i < |cs| ensures Best(km', sym, cs[i]) == 0 {
        PlacedBest(km, key, sym, cs[i]);
      }
    }
  }
}
