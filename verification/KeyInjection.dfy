/**
 lorieKeysymKeyboardEvent: typing a keysym by pressing a key, with fake Shift and level-three events around it.
 */
module KeyInjection {
  import opened Options
  import opened Keymap
  import opened SpareKeys

  datatype Event = KeyPress(key: KeyCode) | KeyRelease(key: KeyCode)

  const XK_Tab: KeySym := 0xff09
  const XK_Num_Lock: KeySym := 0xff7f
  const MaxFakes: nat := 8                       // room in shift_release and level_three_release

  // ----- event traces -----

  /** Presses minus releases of a key. */
  function Net(es: seq<Event>, key: KeyCode): int {
    if es == [] then 0 else Net(es[..|es| - 1], key) + Weight(es[|es| - 1], key)
  }

  function Weight(e: Event, key: KeyCode): int {
    match e
    case KeyPress(k) => if k == key then 1 else 0
    case KeyRelease(k) => if k == key then -1 else 0
  }

  /** The keys that are down after the events. */
  function HeldAfter(held: set<KeyCode>, es: seq<Event>): set<KeyCode> {
    if es == [] then held
    else
      match es[|es| - 1]
      case KeyPress(k) => HeldAfter(held, es[..|es| - 1]) + {k}
      case KeyRelease(k) => HeldAfter(held, es[..|es| - 1]) - {k}
  }

  function Presses(keys: seq<KeyCode>): seq<Event> { seq(|keys|, i requires 0 <= i < |keys| => KeyPress(keys[i])) }

  function Releases(keys: seq<KeyCode>): seq<Event> { seq(|keys|, i requires 0 <= i < |keys| => KeyRelease(keys[i])) }

  lemma {:induction false} NetConcat(a: seq<Event>, b: seq<Event>, key: KeyCode)
    ensures Net(a + b, key) == Net(a, key) + Net(b, key)
  {
    if b == [] {
      assert a + b == a;
    } else {
      assert (a + b)[..|a + b| - 1] == a + b[..|b| - 1];
      NetConcat(a, b[..|b| - 1], key);
    }
  }

  lemma {:induction false} NetOpposite(keys: seq<KeyCode>, key: KeyCode)
    ensures Net(Presses(keys), key) + Net(Releases(keys), key) == 0
  {
    if keys != [] {
      var fewer := keys[..|keys| - 1];
      NetOpposite(fewer, key);
      assert Presses(keys)[..|keys| - 1] == Presses(fewer);
      assert Releases(keys)[..|keys| - 1] == Releases(fewer);
    }
  }

  lemma {:induction false} HeldConcat(held: set<KeyCode>, a: seq<Event>, b: seq<Event>)
    ensures HeldAfter(held, a + b) == HeldAfter(HeldAfter(held, a), b)
  {
    if b == [] {
      assert a + b == a;
    } else {
      assert (a + b)[..|a + b| - 1] == a + b[..|b| - 1];
      HeldConcat(held, a, b[..|b| - 1]);
    }
  }

  lemma {:induction false} HeldAfterReleases(held: set<KeyCode>, keys: seq<KeyCode>)
    ensures HeldAfter(held, Releases(keys)) == held - (set k | k in keys)
  {
    if keys != [] {
      var fewer := keys[..|keys| - 1];
      HeldAfterReleases(held, fewer);
      assert Releases(keys)[..|keys| - 1] == Releases(fewer);
      assert keys == fewer + [keys[|keys| - 1]];
    }
  }

  lemma HeldAfterPress(held: set<KeyCode>, key: KeyCode)
    ensures HeldAfter(held, [KeyPress(key)]) == held + {key}
  {
    assert [KeyPress(key)][..0] == [];
  }

  // ----- fake modifiers -----

  /** What is queued before the key, and what undoes it afterwards. */
  datatype Fake = NoFake | FakePress(key: KeyCode) | FakeRelease(keys: seq<KeyCode>)

  function Apply(f: Fake): seq<Event> {
    match f
    case NoFake => []
    case FakePress(k) => [KeyPress(k)]
    case FakeRelease(ks) => Releases(ks)
  }

  function Undo(f: Fake): seq<Event> {
    match f
    case NoFake => []
    case FakePress(k) => [KeyRelease(k)]
    case FakeRelease(ks) => Presses(ks)
  }

  lemma UndoBalances(f: Fake, key: KeyCode)
    ensures Net(Apply(f), key) + Net(Undo(f), key) == 0
  {
    match f
    case NoFake =>
    case FakePress(k) =>
      assert [KeyPress(k)][..0] == [] && [KeyRelease(k)][..0] == [];
    case FakeRelease(ks) => NetOpposite(ks, key);
  }

  /** The lowest key at or above `from` that sets Shift, or one above the highest key. */
  function ShiftKeyFrom(km: Keymap, s: KeyboardState, from: KeyCode): (key: KeyCode)
    requires ValidKeymap(km) && km.minKey <= from <= km.maxKey + 1
    ensures from <= key <= km.maxKey + 1 && (key <= km.maxKey ==> Has(ModsOf(km, key, s), ShiftMask))
    ensures forall k :: from <= k < key ==> !Has(ModsOf(km, k, s), ShiftMask)
    decreases km.maxKey + 1 - from
  {
    if from > km.maxKey || Has(ModsOf(km, from, s), ShiftMask) then from else ShiftKeyFrom(km, s, from + 1)
  }

  /** The key to press for Shift: the lowest that sets it; 0 if Shift is down or no key sets it. */
  function ShiftPress(km: Keymap, s: KeyboardState): (key: KeyCode)
    requires ValidKeymap(km)
    ensures key < 256
    ensures key != 0 ==> !Has(s.mods, ShiftMask) && InRange(km, key) && Has(ModsOf(km, key, s), ShiftMask)
    ensures key == 0 ==> Has(s.mods, ShiftMask) || forall k :: InRange(km, k) ==> !Has(ModsOf(km, k, s), ShiftMask)
  {
    var key := ShiftKeyFrom(km, s, km.minKey);
    if Has(s.mods, ShiftMask) || key > km.maxKey then 0 else key
  }

  /** loriePressShift */
  method PressShift(km: Keymap, s: KeyboardState) returns (key: KeyCode)
    requires ValidKeymap(km)
    ensures key == ShiftPress(km, s)
  {
    if Has(s.mods, ShiftMask) {
      return 0;
    }
    key := km.minKey;
    while key <= km.maxKey
      invariant km.minKey <= key <= km.maxKey + 1 && ShiftKeyFrom(km, s, km.minKey) == ShiftKeyFrom(km, s, key)
    {
      if Has(ModsOf(km, key, s), ShiftMask) {
        return;
      }
      key := key + 1;
    }
    key := 0;
  }

  /** The keys are exactly the held keys that set some modifier of the mask. */
  ghost predicate ExactlyHeld(km: Keymap, held: set<KeyCode>, s: KeyboardState, mask: Mods, keys: seq<KeyCode>)
    requires ValidKeymap(km)
  {
    forall k :: k in keys <==> InRange(km, k) && k in held && Has(ModsOf(km, k, s), mask)
  }

  /** The held keys below `end` that set some modifier of the mask, in order. */
  function ModKeys(km: Keymap, held: set<KeyCode>, s: KeyboardState, mask: Mods, end: KeyCode): seq<KeyCode>
    requires ValidKeymap(km) && km.minKey <= end <= km.maxKey + 1
    decreases end
  {
    if end == km.minKey then []
    else
      var fewer := ModKeys(km, held, s, mask, end - 1);
      if end - 1 in held && Has(ModsOf(km, end - 1, s), mask) then fewer + [end - 1] else fewer
  }

  lemma {:induction false} ModKeysAre(km: Keymap, held: set<KeyCode>, s: KeyboardState, mask: Mods, end: KeyCode)
    requires ValidKeymap(km) && km.minKey <= end <= km.maxKey + 1
    ensures forall k ::
      k in ModKeys(km, held, s, mask, end) <==> km.minKey <= k < end && k in held && Has(ModsOf(km, k, s), mask)
    decreases end
  {
    if end > km.minKey {
      ModKeysAre(km, held, s, mask, end - 1);
    }
  }

  lemma {:induction false} ModKeysGrow(
    km: Keymap, held: set<KeyCode>, s: KeyboardState, mask: Mods, a: KeyCode, b: KeyCode)
    requires ValidKeymap(km) && km.minKey <= a <= b <= km.maxKey + 1
    ensures |ModKeys(km, held, s, mask, a)| <= |ModKeys(km, held, s, mask, b)|
    decreases b
  {
    if a < b {
      ModKeysGrow(km, held, s, mask, a, b - 1);
    }
  }

  /** What is released to clear the modifiers: all keys that hold them, or nothing when they are too many. */
  function Releasable(km: Keymap, held: set<KeyCode>, s: KeyboardState, mask: Mods): (ks: seq<KeyCode>)
    requires ValidKeymap(km)
    ensures ks != [] ==> |ks| <= MaxFakes && ExactlyHeld(km, held, s, mask, ks)
  {
    var ks := ModKeys(km, held, s, mask, km.maxKey + 1);
    ModKeysAre(km, held, s, mask, km.maxKey + 1);
    if !Has(s.mods, mask) || |ks| > MaxFakes then [] else ks
  }

  /** lorieReleaseShift and lorieReleaseLevelThree */
  method ReleaseMods(km: Keymap, held: set<KeyCode>, s: KeyboardState, mask: Mods) returns (keys: seq<KeyCode>)
    requires ValidKeymap(km)
    ensures keys == Releasable(km, held, s, mask)
  {
    keys := [];
    if !Has(s.mods, mask) {
      return;
    }
    var key := km.minKey;
    while key <= km.maxKey
      invariant km.minKey <= key <= km.maxKey + 1 && |keys| <= MaxFakes
      invariant keys == ModKeys(km, held, s, mask, key)
    {
      if key in held && Has(ModsOf(km, key, s), mask) {
        if |keys| >= MaxFakes {
          ModKeysGrow(km, held, s, mask, key + 1, km.maxKey + 1);
          return [];
        }
        keys := keys + [key];
      }
      key := key + 1;
    }
  }

  /** The key to press for level three: the best ISO_Level3_Shift key, else the best Mode_switch key; 0 when level
      three is down already, or there is no such key, or it does not set modifiers. */
  ghost function LevelThreePress(km: Keymap, s: KeyboardState): (key: KeyCode)
    requires ValidKeymap(km)
    ensures key < 256 && (key != 0 ==> InRange(km, key))
  {
    var l3, k := LevelThree(km, s), Best(km, XK_ISO_Level3_Shift, s);
    var key := if k != 0 then k else Best(km, XK_Mode_switch, s);
    if l3 == 0 || Has(s.mods, l3) || key == 0 || !SetsMods(ActionOf(km, key, s)) then 0 else key
  }

  predicate SetsMods(act: Option<KeyAction>) { act.Some? && act.value.SetMods? }

  /** loriePressLevelThree */
  method PressLevelThree(km: Keymap, s: KeyboardState) returns (key: KeyCode)
    requires ValidKeymap(km)
    ensures key == LevelThreePress(km, s)
  {
    var mask := LevelThreeMask(km, s);
    if mask == 0 || Has(s.mods, mask) {
      return 0;
    }
    key := FindKey(km, XK_ISO_Level3_Shift, s);
    if key == 0 {
      key := FindKey(km, XK_Mode_switch, s);
      if key == 0 {
        return 0;
      }
    }
    var act := ActionOf(km, key, s);
    if act.None? || !act.value.SetMods? {
      key := 0;
    }
  }

  /** Shift has to change from s to t and no key, or no set of at most eight held keys, can change it. */
  ghost predicate ShiftStuck(km: Keymap, held: set<KeyCode>, s: KeyboardState, t: KeyboardState)
    requires ValidKeymap(km)
  {
    || (!Has(s.mods, ShiftMask) && Has(t.mods, ShiftMask) && ShiftPress(km, s) == 0)
    || (Has(s.mods, ShiftMask) && !Has(t.mods, ShiftMask) && Releasable(km, held, s, ShiftMask) == [])
  }

  ghost predicate ShiftFake(km: Keymap, held: set<KeyCode>, s: KeyboardState, t: KeyboardState, f: Fake)
    requires ValidKeymap(km)
  {
    match f
    case NoFake => Has(s.mods, ShiftMask) == Has(t.mods, ShiftMask)
    case FakePress(k) => !Has(s.mods, ShiftMask) && Has(t.mods, ShiftMask) && k == ShiftPress(km, s) != 0
    case FakeRelease(ks) =>
      Has(s.mods, ShiftMask) && !Has(t.mods, ShiftMask) && ks != [] && ExactlyHeld(km, held, s, ShiftMask, ks)
  }

  /** The Shift part: what to fake when Shift has to change from s to t. */
  method FakeShift(km: Keymap, held: set<KeyCode>, s: KeyboardState, t: KeyboardState) returns (ok: bool, f: Fake)
    requires ValidKeymap(km)
    ensures ok <==> !ShiftStuck(km, held, s, t)
    ensures if ok then ShiftFake(km, held, s, t, f) else f == NoFake
  {
    if !Has(s.mods, ShiftMask) && Has(t.mods, ShiftMask) {
      var key := PressShift(km, s);
      return key != 0, if key != 0 then FakePress(key) else NoFake;
    } else if Has(s.mods, ShiftMask) && !Has(t.mods, ShiftMask) {
      var keys := ReleaseMods(km, held, s, ShiftMask);
      return keys != [], if keys != [] then FakeRelease(keys) else NoFake;
    }
    return true, NoFake;
  }

  /** The level-three mask, if the states differ in more than Shift. */
  ghost function ChangedMask(km: Keymap, s: KeyboardState, t: KeyboardState): Mods
    requires ValidKeymap(km)
  {
    if t.mods & !ShiftMask != s.mods & !ShiftMask || t.group != s.group then LevelThree(km, s) else 0
  }

  ghost predicate LevelThreeStuck(km: Keymap, held: set<KeyCode>, s: KeyboardState, t: KeyboardState)
    requires ValidKeymap(km)
  {
    var m := ChangedMask(km, s, t);
    || (!Has(s.mods, m) && Has(t.mods, m) && LevelThreePress(km, s) == 0)
    || (Has(s.mods, m) && !Has(t.mods, m) && Releasable(km, held, s, m) == [])
  }

  ghost predicate LevelThreeFake(km: Keymap, held: set<KeyCode>, s: KeyboardState, t: KeyboardState, f: Fake)
    requires ValidKeymap(km)
  {
    var m := ChangedMask(km, s, t);
    match f
    case NoFake => Has(s.mods, m) == Has(t.mods, m)
    case FakePress(k) => !Has(s.mods, m) && Has(t.mods, m) && k == LevelThreePress(km, s) != 0
    case FakeRelease(ks) =>
      Has(s.mods, m) && !Has(t.mods, m) && ks != [] && ExactlyHeld(km, held, s, LevelThree(km, s), ks)
  }

  /** The level-three part. */
  method FakeLevelThree(km: Keymap, held: set<KeyCode>, s: KeyboardState, t: KeyboardState) returns (ok: bool, f: Fake)
    requires ValidKeymap(km)
    ensures ok <==> !LevelThreeStuck(km, held, s, t)
    ensures if ok then LevelThreeFake(km, held, s, t, f) else f == NoFake
  {
    var mask: Mods := 0;
    if t.mods & !ShiftMask != s.mods & !ShiftMask || t.group != s.group {
      mask := LevelThreeMask(km, s);
    }
    if !Has(s.mods, mask) && Has(t.mods, mask) {
      var key := PressLevelThree(km, s);
      return key != 0, if key != 0 then FakePress(key) else NoFake;
    } else if Has(s.mods, mask) && !Has(t.mods, mask) {
      var keys := ReleaseMods(km, held, s, mask);
      return keys != [], if keys != [] then FakeRelease(keys) else NoFake;
    }
    return true, NoFake;
  }

  // ----- the modifiers are right when the key is pressed -----

  // A key sets the same modifiers whenever it is pressed, so reading them in the current state s tells what it does.

  predicate Sets(km: Keymap, k: KeyCode, s: KeyboardState, mask: Mods)
    requires ValidKeymap(km)
  {
    InRange(km, k) && Has(ModsOf(km, k, s), mask)
  }

  /** A modifier is down: some held key sets it. */
  ghost predicate Down(km: Keymap, held: set<KeyCode>, s: KeyboardState, mask: Mods)
    requires ValidKeymap(km)
  {
    exists k :: k in held && Sets(km, k, s, mask)
  }

  /** A held key sets one modifier and not the other. */
  ghost predicate DownAlone(km: Keymap, held: set<KeyCode>, s: KeyboardState, mask: Mods, other: Mods)
    requires ValidKeymap(km)
  {
    exists k :: k in held && Sets(km, k, s, mask) && !Sets(km, k, s, other)
  }

  /** The modifier's bit in the state comes from held keys. */
  ghost predicate FromHeld(km: Keymap, held: set<KeyCode>, s: KeyboardState, mask: Mods)
    requires ValidKeymap(km)
  {
    Has(s.mods, mask) <==> Down(km, held, s, mask)
  }

  lemma DownAfterPress(km: Keymap, held: set<KeyCode>, s: KeyboardState, mask: Mods, key: KeyCode)
    requires ValidKeymap(km)
    ensures Down(km, HeldAfter(held, [KeyPress(key)]), s, mask) <==> Down(km, held, s, mask) || Sets(km, key, s, mask)
  {
    HeldAfterPress(held, key);
    assert key in held + {key};
    if Down(km, held, s, mask) {
      var k :| k in held && Sets(km, k, s, mask);
      assert k in held + {key};
    }
  }

  /** Releasing all held keys that set `other` leaves a modifier down exactly if a held key sets it alone. */
  lemma DownAfterReleases(
    km: Keymap, held: set<KeyCode>, s: KeyboardState, mask: Mods, other: Mods, keys: seq<KeyCode>)
    requires ValidKeymap(km) && ExactlyHeld(km, held, s, other, keys)
    ensures Down(km, HeldAfter(held, Releases(keys)), s, mask) <==> DownAlone(km, held, s, mask, other)
  {
    HeldAfterReleases(held, keys);
    var later := held - (set k | k in keys);
    forall k ensures k in later <==> k in held && !Sets(km, k, s, other) {
      assert k in keys <==> InRange(km, k) && k in held && Has(ModsOf(km, k, s), other);
    }
  }

  /** After the Shift part Shift is as wanted. */
  lemma AfterShiftFake(km: Keymap, held: set<KeyCode>, s: KeyboardState, t: KeyboardState, f: Fake)
    requires ValidKeymap(km) && FromHeld(km, held, s, ShiftMask) && ShiftFake(km, held, s, t, f)
    ensures Down(km, HeldAfter(held, Apply(f)), s, ShiftMask) <==> Has(t.mods, ShiftMask)
  {
    match f
    case NoFake =>
    case FakePress(k) => DownAfterPress(km, held, s, ShiftMask, k);
    case FakeRelease(ks) => DownAfterReleases(km, held, s, ShiftMask, ShiftMask, ks);
  }

  /** The level-three part leaves Shift alone: a key pressed for it does not set Shift where Shift is not wanted, and
      keys released for it are not the only ones that hold a wanted Shift. */
  ghost predicate ShiftUndisturbed(km: Keymap, held: set<KeyCode>, s: KeyboardState, t: KeyboardState)
    requires ValidKeymap(km)
  {
    var m := ChangedMask(km, s, t);
    && (!Has(s.mods, m) && Has(t.mods, m) && !Has(t.mods, ShiftMask) ==>
          !Sets(km, LevelThreePress(km, s), s, ShiftMask))
    && (Has(s.mods, m) && !Has(t.mods, m) && Has(t.mods, ShiftMask) && Has(s.mods, ShiftMask) ==>
          DownAlone(km, held, s, ShiftMask, LevelThree(km, s)))
  }

  /** When the Shift bit comes from held keys: at the moment the real key is pressed, Shift is as the chosen state wants
      it if and only if the level-three part leaves it alone. */
  lemma ShiftIsRight(km: Keymap, held: set<KeyCode>, s: KeyboardState, t: KeyboardState, shift: Fake, level3: Fake)
    requires ValidKeymap(km) && FromHeld(km, held, s, ShiftMask)
    requires ShiftFake(km, held, s, t, shift) && LevelThreeFake(km, held, s, t, level3)
    ensures (Down(km, HeldAfter(held, Apply(shift) + Apply(level3)), s, ShiftMask) <==> Has(t.mods, ShiftMask))
       <==> ShiftUndisturbed(km, held, s, t)
  {
    var now := HeldAfter(held, Apply(shift));
    HeldConcat(held, Apply(shift), Apply(level3));
    AfterShiftFake(km, held, s, t, shift);
    match level3
    case NoFake =>
    case FakePress(k) => DownAfterPress(km, now, s, ShiftMask, k);
    case FakeRelease(ks) => ShiftAfterRelease(km, held, s, t, shift, ks);
  }

  lemma ShiftAfterRelease(
    km: Keymap, held: set<KeyCode>, s: KeyboardState, t: KeyboardState, shift: Fake, keys: seq<KeyCode>)
    requires ValidKeymap(km) && FromHeld(km, held, s, ShiftMask) && ShiftFake(km, held, s, t, shift)
    requires ExactlyHeld(km, held, s, LevelThree(km, s), keys)
    ensures Down(km, HeldAfter(HeldAfter(held, Apply(shift)), Releases(keys)), s, ShiftMask)
       <==> (Has(t.mods, ShiftMask)
             && (Has(s.mods, ShiftMask) ==> DownAlone(km, held, s, ShiftMask, LevelThree(km, s))))
  {
    var now := HeldAfter(held, Apply(shift));
    HeldAfterReleases(now, keys);
    AfterShiftFake(km, held, s, t, shift);
    match shift
    case NoFake => DownAfterReleases(km, held, s, ShiftMask, LevelThree(km, s), keys);
    case FakePress(k) =>
      HeldAfterPress(held, k);
      assert k !in held && k in now - (set x | x in keys) && Sets(km, k, s, ShiftMask);
    case FakeRelease(ks) =>
      assert forall k :: k in now - (set x | x in keys) ==> k in now;
  }

  /** The key pressed for Shift sets level three as well. */
  ghost predicate Strayed(km: Keymap, s: KeyboardState, t: KeyboardState)
    requires ValidKeymap(km)
  {
    !Has(s.mods, ShiftMask) && Has(t.mods, ShiftMask) && Sets(km, ShiftPress(km, s), s, LevelThree(km, s))
  }

  /** Level three is left alone: the keys pressed or released for Shift neither set nor hold it against what is wanted,
      and the key pressed for it sets it. */
  ghost predicate LevelThreeUndisturbed(km: Keymap, held: set<KeyCode>, s: KeyboardState, t: KeyboardState)
    requires ValidKeymap(km)
  {
    var m := ChangedMask(km, s, t);
    if !Has(s.mods, m) && Has(t.mods, m) then
      Strayed(km, s, t) || Sets(km, LevelThreePress(km, s), s, LevelThree(km, s))
    else if Has(s.mods, m) && !Has(t.mods, m) then !Strayed(km, s, t)
    else Has(t.mods, LevelThree(km, s)) <==> Strayed(km, s, t) || LeftByShift(km, held, s, t)
  }

  /** Level three is still down after a release of Shift, or was down if there is none. */
  ghost predicate LeftByShift(km: Keymap, held: set<KeyCode>, s: KeyboardState, t: KeyboardState)
    requires ValidKeymap(km)
  {
    if Has(s.mods, ShiftMask) && !Has(t.mods, ShiftMask) then DownAlone(km, held, s, LevelThree(km, s), ShiftMask)
    else Has(s.mods, LevelThree(km, s))
  }

  lemma LevelThreeAfterShift(km: Keymap, held: set<KeyCode>, s: KeyboardState, t: KeyboardState, f: Fake)
    requires ValidKeymap(km) && FromHeld(km, held, s, LevelThree(km, s)) && ShiftFake(km, held, s, t, f)
    ensures Down(km, HeldAfter(held, Apply(f)), s, LevelThree(km, s))
       <==> LeftByShift(km, held, s, t) || Strayed(km, s, t)
  {
    match f
    case NoFake =>
    case FakePress(k) => DownAfterPress(km, held, s, LevelThree(km, s), k);
    case FakeRelease(ks) => DownAfterReleases(km, held, s, LevelThree(km, s), ShiftMask, ks);
  }

  /** When both bits come from held keys: at the moment the real key is pressed, level three is as the chosen state
      wants it if and only if it is left alone. */
  lemma LevelThreeIsRight(km: Keymap, held: set<KeyCode>, s: KeyboardState, t: KeyboardState, shift: Fake, level3: Fake)
    requires ValidKeymap(km) && FromHeld(km, held, s, ShiftMask) && FromHeld(km, held, s, LevelThree(km, s))
    requires ShiftFake(km, held, s, t, shift) && LevelThreeFake(km, held, s, t, level3)
    ensures var l3 := LevelThree(km, s);
      (Down(km, HeldAfter(held, Apply(shift) + Apply(level3)), s, l3) <==> Has(t.mods, l3))
      <==> LevelThreeUndisturbed(km, held, s, t)
  {
    var now := HeldAfter(held, Apply(shift));
    HeldConcat(held, Apply(shift), Apply(level3));
    match level3
    case NoFake => LevelThreeAfterShift(km, held, s, t, shift);
    case FakePress(k) => LevelThreeAfterPress(km, held, s, t, shift);
    case FakeRelease(ks) => LevelThreeAfterRelease(km, held, s, t, shift, ks);
  }

  lemma LevelThreeAfterPress(km: Keymap, held: set<KeyCode>, s: KeyboardState, t: KeyboardState, shift: Fake)
    requires ValidKeymap(km) && FromHeld(km, held, s, LevelThree(km, s)) && ShiftFake(km, held, s, t, shift)
    requires LevelThreePress(km, s) != 0
    ensures var k := LevelThreePress(km, s);
      Down(km, HeldAfter(HeldAfter(held, Apply(shift)), [KeyPress(k)]), s, LevelThree(km, s))
      <==> Strayed(km, s, t) || Sets(km, k, s, LevelThree(km, s))
  {
    LevelThreeAfterShift(km, held, s, t, shift);
    DownAfterPress(km, HeldAfter(held, Apply(shift)), s, LevelThree(km, s), LevelThreePress(km, s));
    NotLeftUp(km, held, s, t);
  }

  lemma NotLeftUp(km: Keymap, held: set<KeyCode>, s: KeyboardState, t: KeyboardState)
    requires ValidKeymap(km) && FromHeld(km, held, s, LevelThree(km, s)) && !Has(s.mods, LevelThree(km, s))
    ensures !LeftByShift(km, held, s, t)
  {}

  lemma LevelThreeAfterRelease(
    km: Keymap, held: set<KeyCode>, s: KeyboardState, t: KeyboardState, shift: Fake, keys: seq<KeyCode>)
    requires ValidKeymap(km) && FromHeld(km, held, s, ShiftMask) && ShiftFake(km, held, s, t, shift)
    requires ExactlyHeld(km, held, s, LevelThree(km, s), keys)
    ensures Down(km, HeldAfter(HeldAfter(held, Apply(shift)), Releases(keys)), s, LevelThree(km, s))
       <==> Strayed(km, s, t)
  {
    var now := HeldAfter(held, Apply(shift));
    HeldAfterReleases(now, keys);
    var later := now - (set x | x in keys);
    match shift
    case NoFake =>
    case FakePress(k) =>
      HeldAfterPress(held, k);
      assert k !in held && k in later;
    case FakeRelease(ks) => HeldAfterReleases(held, ks);
  }

  // ----- the symbol the key produces -----

  /** The modifiers in effect while the keys are held, next to those that are locked. */
  ghost predicate InEffect(km: Keymap, locked: Mods, held: set<KeyCode>, s: KeyboardState, mods: Mods)
    requires ValidKeymap(km)
  {
    forall b :: OneBit(b) ==> (Has(mods, b) <==> Has(locked, b) || Down(km, held, s, b))
  }

  /** Shift and level three are one modifier each, not locked, and keys that set one set nothing else. */
  ghost predicate PlainModifiers(km: Keymap, locked: Mods, s: KeyboardState)
    requires ValidKeymap(km)
  {
    var l3 := LevelThree(km, s);
    && (l3 == 0 || OneBit(l3)) && l3 != ShiftMask && locked & (ShiftMask | l3) == 0
    && (forall k :: Sets(km, k, s, ShiftMask) ==> ModsOf(km, k, s) == ShiftMask)
    && (forall k :: Sets(km, k, s, l3) ==> ModsOf(km, k, s) == l3)
    && (LevelThreePress(km, s) != 0 ==> ModsOf(km, LevelThreePress(km, s), s) == l3)
  }

  lemma SameBits(a: Mods, b: Mods)
    requires forall x :: OneBit(x) ==> (Has(a, x) <==> Has(b, x))
    ensures a == b
  {
    assert OneBit(1) && OneBit(2) && OneBit(4) && OneBit(8) && OneBit(16) && OneBit(32) && OneBit(64) && OneBit(128);
    BitsDecide(a, b);
  }

  lemma BitsDecide(a: Mods, b: Mods)
    requires Has(a, 1) == Has(b, 1) && Has(a, 2) == Has(b, 2) && Has(a, 4) == Has(b, 4) && Has(a, 8) == Has(b, 8)
    requires Has(a, 16) == Has(b, 16) && Has(a, 32) == Has(b, 32)
    requires Has(a, 64) == Has(b, 64) && Has(a, 128) == Has(b, 128)
    ensures a == b
  {}

  lemma DistinctBits(a: Mods, b: Mods)
    requires OneBit(b) && a != b && (a == 0 || OneBit(a))
    ensures !Has(a, b)
  {}

  predicate Touches(f: Fake, k: KeyCode) { (f.FakePress? && f.key == k) || (f.FakeRelease? && k in f.keys) }

  /** A fake that touches no key of a modifier leaves it as it is. */
  lemma UnrelatedFake(km: Keymap, held: set<KeyCode>, s: KeyboardState, f: Fake, b: Mods)
    requires ValidKeymap(km) && forall k :: Touches(f, k) ==> !Sets(km, k, s, b)
    ensures Down(km, HeldAfter(held, Apply(f)), s, b) <==> Down(km, held, s, b)
  {
    match f
    case NoFake =>
    case FakePress(k) =>
      assert Touches(f, k);
      DownAfterPress(km, held, s, b, k);
    case FakeRelease(ks) =>
      HeldAfterReleases(held, ks);
      var later := held - (set k | k in ks);
      forall k | k in held && Sets(km, k, s, b) ensures k in later {
        assert !Touches(f, k);
      }
  }

  /** The faked keys set nothing but Shift and level three. */
  lemma FakesAreUnrelated(
    km: Keymap, held: set<KeyCode>, locked: Mods, s: KeyboardState, t: KeyboardState,
    shift: Fake, level3: Fake, b: Mods)
    requires ValidKeymap(km) && PlainModifiers(km, locked, s)
    requires ShiftFake(km, held, s, t, shift) && LevelThreeFake(km, held, s, t, level3)
    requires OneBit(b) && b != ShiftMask && b != LevelThree(km, s)
    ensures forall k :: Touches(shift, k) || Touches(level3, k) ==> !Sets(km, k, s, b)
  {
    DistinctBits(ShiftMask, b);
    DistinctBits(LevelThree(km, s), b);
    forall k | Touches(shift, k) ensures !Sets(km, k, s, b) {
      assert Sets(km, k, s, ShiftMask);
    }
    forall k | Touches(level3, k) ensures !Sets(km, k, s, b) {
      assert level3.FakeRelease? ==> Sets(km, k, s, LevelThree(km, s));
    }
  }

  /** A key that sets one of two different bits and nothing else does not set the other. */
  lemma PlainKeys(km: Keymap, locked: Mods, s: KeyboardState, k: KeyCode)
    requires ValidKeymap(km) && PlainModifiers(km, locked, s)
    ensures !(Sets(km, k, s, ShiftMask) && Sets(km, k, s, LevelThree(km, s)))
    ensures LevelThreePress(km, s) != 0 ==> !Sets(km, LevelThreePress(km, s), s, ShiftMask)
  {
    BitsApart(LevelThree(km, s));
  }

  lemma BitsApart(l3: Mods)
    requires (l3 == 0 || OneBit(l3)) && l3 != ShiftMask
    ensures !Has(ShiftMask, l3) && !Has(l3, ShiftMask) && (l3 != 0 ==> Has(l3, l3))
  {}

  lemma PlainShiftUndisturbed(km: Keymap, held: set<KeyCode>, locked: Mods, s: KeyboardState, t: KeyboardState)
    requires ValidKeymap(km) && PlainModifiers(km, locked, s) && FromHeld(km, held, s, ShiftMask)
    ensures ShiftUndisturbed(km, held, s, t)
  {
    PlainKeys(km, locked, s, 0);
    if Has(s.mods, ShiftMask) {
      var k :| k in held && Sets(km, k, s, ShiftMask);
      PlainKeys(km, locked, s, k);
    }
  }

  lemma PlainLeftByShift(km: Keymap, held: set<KeyCode>, locked: Mods, s: KeyboardState, t: KeyboardState)
    requires ValidKeymap(km) && PlainModifiers(km, locked, s) && FromHeld(km, held, s, LevelThree(km, s))
    ensures !Strayed(km, s, t) && (LeftByShift(km, held, s, t) <==> Has(s.mods, LevelThree(km, s)))
  {
    PlainKeys(km, locked, s, ShiftPress(km, s));
    if Has(s.mods, LevelThree(km, s)) {
      var k :| k in held && Sets(km, k, s, LevelThree(km, s));
      PlainKeys(km, locked, s, k);
    }
  }

  lemma SameOutsideShift(a: Mods, b: Mods, mask: Mods)
    requires a & !ShiftMask == b & !ShiftMask && mask & ShiftMask == 0
    ensures Has(a, mask) == Has(b, mask)
  {
    assert a & mask == (a & !ShiftMask) & mask;
    assert b & mask == (b & !ShiftMask) & mask;
  }

  lemma PlainLevelThreeUndisturbed(
    km: Keymap, held: set<KeyCode>, locked: Mods, s: KeyboardState, t: KeyboardState, f: Fake)
    requires ValidKeymap(km) && PlainModifiers(km, locked, s) && FromHeld(km, held, s, LevelThree(km, s))
    requires LevelThreeFake(km, held, s, t, f)
    ensures LevelThreeUndisturbed(km, held, s, t)
  {
    var l3, m := LevelThree(km, s), ChangedMask(km, s, t);
    PlainLeftByShift(km, held, locked, s, t);
    BitsApart(l3);
    if !Has(s.mods, m) && Has(t.mods, m) {
      assert m == l3 && LevelThreePress(km, s) != 0;
      assert Sets(km, LevelThreePress(km, s), s, l3);
    } else if m != l3 {
      SameOutsideShift(s.mods, t.mods, l3);
    }
  }

  /** What the fakes are for.  With plain modifiers, the modifiers in effect at the moment the real key is pressed are
      exactly those of the chosen state. */
  lemma TargetInEffect(
    km: Keymap, held: set<KeyCode>, locked: Mods, s: KeyboardState, t: KeyboardState,
    shift: Fake, level3: Fake, mods: Mods)
    requires ValidKeymap(km) && PlainModifiers(km, locked, s) && OnlyToggled(km, s, t)
    requires InEffect(km, locked, held, s, s.mods)
    requires ShiftFake(km, held, s, t, shift) && LevelThreeFake(km, held, s, t, level3)
    requires InEffect(km, locked, HeldAfter(held, Apply(shift) + Apply(level3)), s, mods)
    ensures mods == t.mods
  {
    var later := HeldAfter(held, Apply(shift) + Apply(level3));
    forall b | OneBit(b) ensures Has(mods, b) <==> Has(t.mods, b) {
      if b == ShiftMask || b == LevelThree(km, s) {
        OwnBit(km, held, locked, s, t, shift, level3, b);
        NotLocked(locked, LevelThree(km, s), b);
      } else {
        OtherBit(km, held, locked, s, t, shift, level3, b);
        SameOutside(s.mods, t.mods, LevelThree(km, s), b);
      }
    }
    SameBits(mods, t.mods);
  }

  lemma NotLocked(locked: Mods, l3: Mods, b: Mods)
    requires locked & (ShiftMask | l3) == 0 && (b == ShiftMask || b == l3)
    ensures !Has(locked, b)
  {
    assert locked & b == (locked & (ShiftMask | l3)) & b;
  }

  lemma SameOutside(a: Mods, c: Mods, l3: Mods, b: Mods)
    requires c & !(ShiftMask | l3) == a & !(ShiftMask | l3) && OneBit(b) && b != ShiftMask && b != l3
    requires l3 == 0 || OneBit(l3)
    ensures Has(a, b) == Has(c, b)
  {
    assert b & !(ShiftMask | l3) == b;
    assert a & b == (a & !(ShiftMask | l3)) & b;
    assert c & b == (c & !(ShiftMask | l3)) & b;
  }

  lemma StatesFromHeld(km: Keymap, held: set<KeyCode>, locked: Mods, s: KeyboardState)
    requires ValidKeymap(km) && PlainModifiers(km, locked, s) && InEffect(km, locked, held, s, s.mods)
    ensures FromHeld(km, held, s, ShiftMask) && FromHeld(km, held, s, LevelThree(km, s))
  {
    NotLocked(locked, LevelThree(km, s), ShiftMask);
    NotLocked(locked, LevelThree(km, s), LevelThree(km, s));
    assert OneBit(ShiftMask);
  }

  lemma OwnBit(
    km: Keymap, held: set<KeyCode>, locked: Mods, s: KeyboardState, t: KeyboardState,
    shift: Fake, level3: Fake, b: Mods)
    requires ValidKeymap(km) && PlainModifiers(km, locked, s) && (b == ShiftMask || b == LevelThree(km, s))
    requires InEffect(km, locked, held, s, s.mods)
    requires ShiftFake(km, held, s, t, shift) && LevelThreeFake(km, held, s, t, level3)
    ensures Down(km, HeldAfter(held, Apply(shift) + Apply(level3)), s, b) <==> Has(t.mods, b)
  {
    StatesFromHeld(km, held, locked, s);
    if b == ShiftMask {
      PlainShiftUndisturbed(km, held, locked, s, t);
      ShiftIsRight(km, held, s, t, shift, level3);
    } else {
      PlainLevelThreeUndisturbed(km, held, locked, s, t, level3);
      LevelThreeIsRight(km, held, s, t, shift, level3);
    }
  }

  lemma OtherBit(
    km: Keymap, held: set<KeyCode>, locked: Mods, s: KeyboardState, t: KeyboardState,
    shift: Fake, level3: Fake, b: Mods)
    requires ValidKeymap(km) && PlainModifiers(km, locked, s) && OneBit(b) && b != ShiftMask && b != LevelThree(km, s)
    requires ShiftFake(km, held, s, t, shift) && LevelThreeFake(km, held, s, t, level3)
    ensures Down(km, HeldAfter(held, Apply(shift) + Apply(level3)), s, b) <==> Down(km, held, s, b)
  {
    FakesAreUnrelated(km, held, locked, s, t, shift, level3, b);
    HeldConcat(held, Apply(shift), Apply(level3));
    UnrelatedFake(km, held, s, shift, b);
    UnrelatedFake(km, HeldAfter(held, Apply(shift)), s, level3, b);
  }

  /** The search changes nothing but Shift and level three. */
  lemma CandidatesToggle(km: Keymap, s: KeyboardState, t: KeyboardState)
    requires ValidKeymap(km) && t in Candidates(km, s)
    ensures OnlyToggled(km, s, t)
  {
    CandidatesOutside(s, LevelThree(km, s), t);
  }

  lemma CandidatesOutside(s: KeyboardState, l3: Mods, t: KeyboardState)
    requires t in CandidatesWith(s, l3)
    ensures t.group == s.group && t.mods & !(ShiftMask | l3) == s.mods & !(ShiftMask | l3)
  {
    CandidateMods(s.mods, l3);
  }

  lemma ShiftRaised(m: Mods)
    ensures Has(m | ShiftMask, ShiftMask)
  {}

  lemma WithShift(m: Mods, l3: Mods)
    ensures (m | ShiftMask) & !(ShiftMask | l3) == m & !(ShiftMask | l3)
  {}

  lemma CandidateMods(m: Mods, l3: Mods)
    ensures Toggled(m, ShiftMask) & !(ShiftMask | l3) == m & !(ShiftMask | l3)
    ensures Toggled(m, l3) & !(ShiftMask | l3) == m & !(ShiftMask | l3)
    ensures ToggledBoth(m, l3) & !(ShiftMask | l3) == m & !(ShiftMask | l3)
  {}

  // ----- the press table -----

  /** No keysym but NoSymbol is recorded for two keycodes. */
  ghost predicate Injective(table: seq<KeySym>) {
    forall i, j :: 0 <= i < j < |table| && table[i] == table[j] ==> table[i] == NoSymbol
  }

  /** The table after a key was pressed for a keysym: only that keycode maps to it. */
  function Recorded(table: seq<KeySym>, key: KeyCode, sym: KeySym): seq<KeySym> {
    seq(|table|, i requires 0 <= i < |table| =>
      if i == key then sym else if table[i] == sym then NoSymbol else table[i])
  }

  /** The lowest keycode recorded for a keysym, or the table's size. */
  function FirstRecorded(table: seq<KeySym>, sym: KeySym): (i: nat)
    ensures i <= |table|
    ensures i < |table| ==> table[i] == sym
    ensures forall j :: 0 <= j < i ==> table[j] != sym
  {
    if table == [] || table[0] == sym then 0 else 1 + FirstRecorded(table[1..], sym)
  }

  predicate Empty(table: seq<KeySym>) { forall i :: 0 <= i < |table| ==> table[i] == NoSymbol }

  lemma RecordedIsInjective(table: seq<KeySym>, key: KeyCode, sym: KeySym)
    requires Injective(table) && key < |table|
    ensures Injective(Recorded(table, key, sym))
    ensures sym != NoSymbol ==> FirstRecorded(Recorded(table, key, sym), sym) == key
  {
    assert Recorded(table, key, sym)[key] == sym;
  }

  /** A keysym recorded for another key stays there, and is what its release finds. */
  lemma RecordedKeepsOthers(table: seq<KeySym>, key: KeyCode, sym: KeySym, other: KeySym, j: KeyCode)
    requires Injective(table) && j < |table| && j != key && table[j] == other
    requires other != sym && other != NoSymbol
    ensures Recorded(table, key, sym)[j] == other
    ensures key < |table| ==> FirstRecorded(Recorded(table, key, sym), other) == j
  {
    if key < |table| {
      RecordedIsInjective(table, key, sym);
    }
  }

  /** The table after a release: the entry that was found is cleared. */
  function Released(table: seq<KeySym>, sym: KeySym): (t: seq<KeySym>)
    ensures |t| == |table|
  {
    var i := FirstRecorded(table, sym);
    if i < |table| then table[i := NoSymbol] else table
  }

  lemma ReleasedKeepsOthers(table: seq<KeySym>, sym: KeySym, other: KeySym)
    requires Injective(table) && other != sym && other != NoSymbol
    ensures Injective(Released(table, sym)) && FirstRecorded(Released(table, sym), other) == FirstRecorded(table, other)
  {
    var t, i := Released(table, sym), FirstRecorded(table, other);
    if i < |table| {
      assert t[i] == other;
    }
  }

  /** A press that typed on a key, and a release; what they do to the table is what Press and Release ensure. */
  datatype TableOp = Typing(sym: KeySym, key: KeyCode) | Releasing(sym: KeySym)

  function TableAfter(table: seq<KeySym>, op: TableOp): seq<KeySym> {
    match op
    case Typing(sym, key) => Recorded(table, key, sym)
    case Releasing(sym) => Released(table, sym)
  }

  function TableRun(table: seq<KeySym>, ops: seq<TableOp>): seq<KeySym> {
    if ops == [] then table else TableAfter(TableRun(table, ops[..|ops| - 1]), ops[|ops| - 1])
  }

  lemma {:induction false} TableStaysInjective(table: seq<KeySym>, ops: seq<TableOp>)
    requires Injective(table) && |table| == 256 && forall op :: op in ops && op.Typing? ==> op.key < 256
    ensures Injective(TableRun(table, ops)) && |TableRun(table, ops)| == 256
  {
    if ops != [] {
      TableStaysInjective(table, ops[..|ops| - 1]);
      var before := TableRun(table, ops[..|ops| - 1]);
      match ops[|ops| - 1]
      case Typing(sym, key) => RecordedIsInjective(before, key, sym);
      case Releasing(sym) =>
    }
  }

  /** The operation leaves what was typed for a keysym on a key alone: it is about other keysyms and other keys. */
  predicate LeavesAlone(op: TableOp, sym: KeySym, key: KeyCode) { op.sym != sym && (op.Typing? ==> op.key != key) }

  /** On every run of presses and releases: a keysym is released on the key it was typed on, whatever else was typed on
      other keys or released in between. */
  lemma {:induction false} ReleasedWhereTyped(table: seq<KeySym>, ops: seq<TableOp>, p: nat)
    requires Injective(table) && |table| == 256 && forall op :: op in ops && op.Typing? ==> op.key < 256
    requires p < |ops| && ops[p].Typing? && ops[p].sym != NoSymbol
    requires forall q :: p < q < |ops| ==> LeavesAlone(ops[q], ops[p].sym, ops[p].key)
    ensures FirstRecorded(TableRun(table, ops), ops[p].sym) == ops[p].key
    decreases |ops|
  {
    var front, op := ops[..|ops| - 1], ops[|ops| - 1];
    var before := TableRun(table, front);
    TableStaysInjective(table, front);
    if p == |front| {
      RecordedIsInjective(before, op.key, op.sym);
    } else {
      ReleasedWhereTyped(table, front, p);
      match op
      case Typing(sym, key) => RecordedKeepsOthers(before, key, sym, ops[p].sym, ops[p].key);
      case Releasing(sym) => ReleasedKeepsOthers(before, sym, ops[p].sym);
    }
  }

  lemma EmptyLookup(table: seq<KeySym>, sym: KeySym)
    requires Empty(table) && table != []
    ensures FirstRecorded(table, sym) == if sym == NoSymbol then 0 else |table|
    ensures Empty(table[0 := NoSymbol])
  {}

  lemma EmptyAgain(table: seq<KeySym>, key: KeyCode, sym: KeySym)
    requires Empty(table) && key < |table|
    ensures Empty(Recorded(table, key, sym)[key := NoSymbol])
  {}

  // ----- the event handler -----

  /** What the press of a keysym led to. */
  datatype Outcome =
    | NoKey                                                          // and none could be added
    | Stuck(key: KeyCode, target: KeyboardState, shift: Fake)        // a modifier cannot be faked; this had been queued
    | Typed(key: KeyCode, target: KeyboardState, shift: Fake, level3: Fake)

  function Trace(o: Outcome): seq<Event> {
    match o
    case NoKey => []
    case Stuck(_, _, shift) => Apply(shift)
    case Typed(key, _, shift, level3) =>
      Apply(shift) + Apply(level3) + [KeyPress(key)] + Undo(level3) + Undo(shift)
  }

  /** What is queued before the real key; the undoing takes as many events as the faking. */
  function BeforeKey(o: Outcome): seq<Event>
    requires o.Typed?
  {
    Trace(o)[..(|Trace(o)| - 1) / 2]
  }

  lemma KeyFollows(o: Outcome)
    requires o.Typed?
    ensures BeforeKey(o) == Apply(o.shift) + Apply(o.level3) && BeforeKey(o) + [KeyPress(o.key)] <= Trace(o)
  {
    var fakes, undo := Apply(o.shift) + Apply(o.level3), Undo(o.level3) + Undo(o.shift);
    assert |Apply(o.shift)| == |Undo(o.shift)| && |Apply(o.level3)| == |Undo(o.level3)|;
    assert Trace(o) == fakes + [KeyPress(o.key)] + undo;
  }

  lemma TraceOf(before: seq<Event>, key: KeyCode, target: KeyboardState, shift: Fake, level3: Fake)
    ensures before + Apply(shift) + Apply(level3) + [KeyPress(key)] + Undo(level3) + Undo(shift)
         == before + Trace(Typed(key, target, shift, level3))
  {
    var a, b, c, d := Apply(shift), Apply(level3), [KeyPress(key)], Undo(level3);
    Assoc(before, a, b);
    Assoc(before, a + b, c);
    Assoc(before, a + b + c, d);
    Assoc(before, a + b + c + d, Undo(shift));
  }

  lemma Assoc(a: seq<Event>, b: seq<Event>, c: seq<Event>)
    ensures (a + b) + c == a + (b + c)
  {}

  /** What the release of a tap finds, and that it leaves the table empty. */
  lemma TapLookup(before: seq<KeySym>, table: seq<KeySym>, sym: KeySym, o: Outcome)
    requires Empty(before) && |before| == 256 && (o.Typed? ==> o.key < 256) && (sym == NoSymbol ==> o.NoKey?)
    requires table == if o.Typed? then Recorded(before, o.key, sym) else before
    ensures var i := FirstRecorded(table, sym);
      && i == (if sym == NoSymbol then 0 else if o.Typed? then o.key else 256)
      && Empty(if i < 256 then table[i := NoSymbol] else table)
  {
    if o.Typed? {
      RecordedIsInjective(before, o.key, sym);
      EmptyAgain(before, o.key, sym);
    } else {
      EmptyLookup(before, sym);
    }
  }

  class Injector {
    const editor: KeymapEditor
    const alternatives: seq<(KeySym, KeySym)>      // altKeysym
    const pressed: array<KeySym>                   // pressedKeys
    var queued: seq<Event>                         // everything queued so far

    ghost predicate Valid() reads this, editor, pressed {
      && Usable(editor.View())
      && pressed.Length == 256 && Injective(pressed[..])
      && (forall i :: 0 <= i < |alternatives| ==> alternatives[i].0 != NoSymbol && alternatives[i].1 != NoSymbol)
    }

    constructor (editor: KeymapEditor, alternatives: seq<(KeySym, KeySym)>)
      requires Usable(editor.View())
      requires forall i :: 0 <= i < |alternatives| ==> alternatives[i].0 != NoSymbol && alternatives[i].1 != NoSymbol
      ensures Valid() && fresh(pressed) && Empty(pressed[..]) && queued == []
      ensures this.editor == editor && this.alternatives == alternatives
    {
      this.editor, this.alternatives, queued := editor, alternatives, [];
      pressed := new KeySym[256](_ => NoSymbol);
    }

    /** What lorieIsAffectedByNumLock computes. */
    static ghost function Affected(km: Keymap, key: KeyCode, s: KeyboardState): bool
      requires ValidKeymap(km) && key < 256
    {
      var k, plain := km.keys[key], s.(mods := 0);
      var numLock := Best(km, XK_Num_Lock, plain);
      var act := if numLock == 0 then None else ActionOf(km, numLock, plain);
      act.Some? && act.value.LockMods? && |k.types| > 0
      && Has(k.types[EffectiveGroup(k, s.group)].mask, if act.value.useModMap then k.modmap else act.value.mask)
    }

    /** The keysym itself or one paired with it in the table. */
    predicate Equivalent(a: KeySym, sym: KeySym) {
      a == sym || (a, sym) in alternatives || (sym, a) in alternatives
    }

    function Other(i: nat, sym: KeySym): (a: Option<KeySym>)
      requires i < |alternatives|
      ensures a.Some? ==> Equivalent(a.value, sym)
    {
      if alternatives[i].0 == sym then Some(alternatives[i].1)
      else if alternatives[i].1 == sym then Some(alternatives[i].0)
      else None
    }

    /** None of the first n table entries offers a keysym that has a key. */
    ghost predicate NoEquivalent(km: Keymap, sym: KeySym, s: KeyboardState, n: nat)
      requires ValidKeymap(km) && n <= |alternatives|
    {
      forall i: nat :: i < n && Other(i, sym).Some? ==> NoAnswer(km, Other(i, sym).value, s)
    }

    lemma EquivalentFound(km: Keymap, sym: KeySym, s: KeyboardState, i: nat)
      requires ValidKeymap(km) && i < |alternatives| && NoEquivalent(km, sym, s, i) && Other(i, sym).Some?
      ensures NoAnswer(km, Other(i, sym).value, s) ==> NoEquivalent(km, sym, s, i + 1)
      ensures !NoAnswer(km, Other(i, sym).value, s) ==> !NoEquivalent(km, sym, s, |alternatives|)
    {}

    /** lorieIsAffectedByNumLock */
    method IsAffectedByNumLock(key: KeyCode, s: KeyboardState) returns (affected: bool)
      requires ValidKeymap(editor.km) && key < 256
      ensures affected == Affected(editor.km, key, s)
    {
      var km, plain := editor.km, s.(mods := 0);
      var numLock := FindKey(km, XK_Num_Lock, plain);
      if numLock == 0 {
        return false;
      }
      var act := ActionOf(km, numLock, plain);
      if act.None? || !act.value.LockMods? || |km.keys[key].types| == 0 {
        return false;
      }
      var mask := if act.value.useModMap then km.keys[key].modmap else act.value.mask;
      affected := Has(km.keys[key].types[EffectiveGroup(km.keys[key], s.group)].mask, mask);
    }

    /** The loop over the table when the keysym itself has no key. */
    method FindEquivalent(sym: KeySym, s: KeyboardState, t0: KeyboardState)
      returns (key: KeyCode, t: KeyboardState, used: KeySym)
      requires ValidKeymap(editor.km) && t0.group == s.group
      ensures t.group == s.group
      ensures key != 0 ==> Fits(editor.km, sym, s, key, t, used)
      ensures key == 0 <==> NoEquivalent(editor.km, sym, s, |alternatives|)
    {
      key, t, used := 0, t0, sym;
      var i := 0;
      while i < |alternatives|
        invariant 0 <= i <= |alternatives| && key == 0 && t.group == s.group
        invariant NoEquivalent(editor.km, sym, s, i)
      {
        var alt := Other(i, sym);
        if alt.Some? {
          key, t := KeysymToKeycode(editor.km, alt.value, s);
          AnswerZero(editor.km, alt.value, s, key, t);
          EquivalentFound(editor.km, sym, s, i);
          if key != 0 {
            AnswerProduces(editor.km, alt.value, s, key, t);
            used := alt.value;
            return;
          }
        }
        i := i + 1;
      }
    }

    /** Neither the keysym nor one paired with it has a key. */
    ghost predicate Lacking(km: Keymap, sym: KeySym, s: KeyboardState)
      requires ValidKeymap(km)
    {
      NoAnswer(km, sym, s) && NoEquivalent(km, sym, s, |alternatives|)
    }

    /** A key for the keysym or an equivalent one, adding the keysym to the keymap if there is none.
        `used` is the symbol the key was found for. */
    method ChooseKey(sym: KeySym, s: KeyboardState) returns (key: KeyCode, t: KeyboardState, used: KeySym)
      requires Valid()
      modifies editor
      ensures Valid() && t.group == s.group
      ensures key != 0 ==> Fits(editor.km, sym, s, key, t, used)
      ensures editor.View()
           == if Lacking(old(editor.km), sym, s) then WithSym(old(editor.View()), sym) else old(editor.View())
      ensures !NoAnswer(old(editor.km), sym, s) ==> used == sym && key != 0 && IsAnswer(old(editor.km), sym, s, key, t)
      ensures key == 0 ==> Lacking(old(editor.km), sym, s) && NoAnswer(editor.km, sym, s)
    {
      used := sym;
      key, t := KeysymToKeycode(editor.km, sym, s);
      AnswerZero(editor.km, sym, s, key, t);
      if key != 0 {
        AnswerProduces(editor.km, sym, s, key, t);
        return;
      }
      key, t, used := FindEquivalent(sym, s, t);
      if key != 0 {
        return;
      }
      used := sym;
      WithSymIsUsable(editor.View(), sym);
      key := editor.AddKeysym(sym);
      if key != 0 {
        key, t := KeysymToKeycode(editor.km, sym, s);
        AnswerZero(editor.km, sym, s, key, t);
        if key != 0 {
          AnswerProduces(editor.km, sym, s, key, t);
        }
      }
    }

    /** A fake Shift would be needed for a key that NumLock affects. */
    ghost predicate Awkward(km: Keymap, s: KeyboardState, key: KeyCode, t: KeyboardState)
      requires ValidKeymap(km) && key < 256
    {
      Has(s.mods, ShiftMask) != Has(t.mods, ShiftMask) && Affected(km, key, s)
    }

    /** The search answers for the keysym with a key that is not awkward. */
    ghost predicate Smooth(km: Keymap, sym: KeySym, s: KeyboardState, key: KeyCode, t: KeyboardState)
      requires ValidKeymap(km)
    {
      IsAnswer(km, sym, s, key, t) && 0 < key < 256 && !Awkward(km, s, key, t)
    }

    /** None of the first n table entries offers such a keysym. */
    ghost predicate NoneSmooth(km: Keymap, sym: KeySym, s: KeyboardState, n: nat)
      requires ValidKeymap(km) && n <= |alternatives|
    {
      forall i: nat, k, t :: i < n && Other(i, sym).Some? ==> !Smooth(km, Other(i, sym).value, s, k, t)
    }

    lemma NotSmooth(km: Keymap, sym: KeySym, s: KeyboardState, i: nat, key: KeyCode, t: KeyboardState)
      requires ValidKeymap(km) && i < |alternatives| && NoneSmooth(km, sym, s, i)
      requires Other(i, sym).Some? ==> IsAnswer(km, Other(i, sym).value, s, key, t) && key < 256
      requires Other(i, sym).Some? ==> !Smooth(km, Other(i, sym).value, s, key, t)
      ensures NoneSmooth(km, sym, s, i + 1)
    {
      if Other(i, sym).Some? {
        var alt := Other(i, sym).value;
        forall k, u | IsAnswer(km, alt, s, k, u) ensures !Smooth(km, alt, s, k, u) {
          AnswerIsUnique(km, alt, s, key, t, k, u);
        }
      }
    }

    /** Table entry i is the first that offers such a keysym, and this is what it offers. */
    ghost predicate FirstSmooth(
      km: Keymap, sym: KeySym, s: KeyboardState, i: nat, key: KeyCode, t: KeyboardState, used: KeySym)
      requires ValidKeymap(km)
    {
      && i < |alternatives| && NoneSmooth(km, sym, s, i)
      && Other(i, sym) == Some(used) && Smooth(km, used, s, key, t)
    }

    /** Prefer an equivalent key that needs no fake Shift, or that NumLock does not affect, to a keypad key that
        does. */
    method AvoidNumpadShift(sym: KeySym, s: KeyboardState, key0: KeyCode, t0: KeyboardState, used0: KeySym)
      returns (key: KeyCode, t: KeyboardState, used: KeySym)
      requires ValidKeymap(editor.km) && Fits(editor.km, sym, s, key0, t0, used0)
      ensures Fits(editor.km, sym, s, key, t, used)
      ensures !Awkward(editor.km, s, key0, t0) || NoneSmooth(editor.km, sym, s, |alternatives|) ==>
        key == key0 && t == t0 && used == used0
      ensures Awkward(editor.km, s, key0, t0) && !NoneSmooth(editor.km, sym, s, |alternatives|) ==>
        exists i: nat :: FirstSmooth(editor.km, sym, s, i, key, t, used)
    {
      key, t, used := key0, t0, used0;
      var affected := IsAffectedByNumLock(key0, s);
      if Has(s.mods, ShiftMask) == Has(t0.mods, ShiftMask) || !affected {
        return;
      }
      var i := 0;
      while i < |alternatives|
        invariant 0 <= i <= |alternatives| && key == key0 && t == t0 && used == used0
        invariant NoneSmooth(editor.km, sym, s, i)
      {
        var alt := Other(i, sym);
        ghost var key3, t3 := 0, s;
        if alt.Some? {
          var key2, t2 := KeysymToKeycode(editor.km, alt.value, s);
          if key2 != 0 {
            AnswerProduces(editor.km, alt.value, s, key2, t2);
            affected := IsAffectedByNumLock(key2, s);
            if Has(s.mods, ShiftMask) == Has(t2.mods, ShiftMask) || !affected {
              assert FirstSmooth(editor.km, sym, s, i, key2, t2, alt.value);
              return key2, t2, alt.value;
            }
          }
          key3, t3 := key2, t2;
        }
        NotSmooth(editor.km, sym, s, i, key3, t3);
        i := i + 1;
      }
    }

    /** The key produces the used keysym under t, one of the states that are tried; that keysym is the wanted one or
        equivalent to it. */
    ghost predicate Fits(km: Keymap, sym: KeySym, s: KeyboardState, key: KeyCode, t: KeyboardState, used: KeySym)
      requires ValidKeymap(km)
    {
      && InRange(km, key) && Produces(km, key, t, used) && Equivalent(used, sym)
      && t in Candidates(km, s) && t.group == s.group
    }

    /** A key of the map that fits; for Tab the target keeps a held Shift. */
    ghost predicate Chosen(km: Keymap, sym: KeySym, s: KeyboardState, key: KeyCode, target: KeyboardState)
      requires ValidKeymap(km)
    {
      exists used, t ::
        && Fits(km, sym, s, key, t, used)
        && target == if sym == XK_Tab && Has(s.mods, ShiftMask) then t.(mods := t.mods | ShiftMask) else t
    }

    /** The first half of lorieKeysymKeyboardEvent: which key, under which state. */
    method Decide(sym: KeySym, s: KeyboardState) returns (key: KeyCode, target: KeyboardState)
      requires Valid()
      modifies editor
      ensures Valid()
      ensures key != 0 ==> Chosen(editor.km, sym, s, key, target)
      ensures key == 0 ==> Lacking(old(editor.km), sym, s) && NoAnswer(editor.km, sym, s)
      ensures editor.View()
           == if Lacking(old(editor.km), sym, s) then WithSym(old(editor.View()), sym) else old(editor.View())
    {
      var t, used;
      key, t, used := ChooseKey(sym, s);
      target := t;
      if key == 0 {
        return;
      }
      key, t, used := AvoidNumpadShift(sym, s, key, t, used);
      target := t;
      if sym == XK_Tab && Has(s.mods, ShiftMask) {
        target := t.(mods := t.mods | ShiftMask);
      }
    }

    /** The fakes before the key.  The level-three part can fail after the Shift part was queued. */
    method QueueFakes(km: Keymap, s: KeyboardState, held: set<KeyCode>, target: KeyboardState)
      returns (ok: bool, shift: Fake, level3: Fake)
      requires ValidKeymap(km)
      modifies this`queued
      ensures queued == old(queued) + Apply(shift) + Apply(level3)
      ensures ok <==> !ShiftStuck(km, held, s, target) && !LevelThreeStuck(km, held, s, target)
      ensures if ShiftStuck(km, held, s, target) then shift == NoFake else ShiftFake(km, held, s, target, shift)
      ensures if ok then LevelThreeFake(km, held, s, target, level3) else level3 == NoFake
    {
      level3 := NoFake;
      ok, shift := FakeShift(km, held, s, target);
      if ok {
        queued := queued + Apply(shift);
        ok, level3 := FakeLevelThree(km, held, s, target);
        queued := queued + Apply(level3);
      }
    }

    /** What is behind an outcome: no key even after the keysym was added; a modifier that cannot be faked, and what had
        been queued by then; or the fakes for the chosen key. */
    ghost predicate Accounted(km: Keymap, sym: KeySym, s: KeyboardState, held: set<KeyCode>, o: Outcome)
      requires ValidKeymap(km)
    {
      match o
      case NoKey => NoAnswer(km, sym, s)
      case Stuck(key, t, shift) =>
        && Chosen(km, sym, s, key, t)
        && (ShiftStuck(km, held, s, t) || LevelThreeStuck(km, held, s, t)) && StuckAfter(km, held, s, t, shift)
      case Typed(key, t, shift, level3) =>
        && Chosen(km, sym, s, key, t) && !ShiftStuck(km, held, s, t) && !LevelThreeStuck(km, held, s, t)
        && ShiftFake(km, held, s, t, shift) && LevelThreeFake(km, held, s, t, level3)
    }

    /** lorieKeysymKeyboardEvent with down set.  s and held are the keyboard's state and the keys that are down once
        the input queue has been processed. */
    method Press(sym: KeySym, s: KeyboardState, held: set<KeyCode>) returns (o: Outcome)
      requires Valid()
      modifies this`queued, editor, pressed
      ensures Valid()
      ensures queued == old(queued) + Trace(o)
      ensures var p := if Lacking(old(editor.km), sym, s) then WithSym(old(editor.View()), sym) else old(editor.View());
        editor.View() == if o.Typed? then Used(p, o.key) else p
      ensures !o.Typed? ==> pressed[..] == old(pressed[..])
      ensures o.Typed? ==> pressed[..] == Recorded(old(pressed[..]), o.key, sym)
      ensures Accounted(editor.km, sym, s, held, o) && (o.NoKey? ==> Lacking(old(editor.km), sym, s))
    {
      var key, target := Decide(sym, s);
      if key == 0 {
        return NoKey;
      }
      var km := editor.km;
      var ok, shift, level3 := QueueFakes(km, s, held, target);
      if !ok {
        return Stuck(key, target, shift);
      }
      PressAndUndo(sym, key, shift, level3);
      o := Typed(key, target, shift, level3);
      TraceOf(old(queued), key, target, shift, level3);
    }

    /** The real key, the table entry, and the end of the fakes. */
    method PressAndUndo(sym: KeySym, key: KeyCode, shift: Fake, level3: Fake)
      requires Valid() && key < 256
      modifies this`queued, editor`added, pressed
      ensures Valid() && editor.View() == Used(old(editor.View()), key)
      ensures queued == old(queued) + [KeyPress(key)] + Undo(level3) + Undo(shift)
      ensures pressed[..] == Recorded(old(pressed[..]), key, sym)
    {
      queued := queued + [KeyPress(key)];
      UsedIsUsable(editor.View(), key);
      editor.OnKeyUsed(key);
      Record(sym, key);
      RecordedIsInjective(old(pressed[..]), key, sym);
      queued := queued + Undo(level3) + Undo(shift);
    }

    /** The loop that stores the mapping. */
    method Record(sym: KeySym, key: KeyCode)
      requires pressed.Length == 256 && key < 256
      modifies pressed
      ensures pressed[..] == Recorded(old(pressed[..]), key, sym)
    {
      var i := 0;
      while i < 256
        invariant i <= 256
        invariant forall j :: 0 <= j < i ==>
          pressed[j] == if j != key && old(pressed[j]) == sym then NoSymbol else old(pressed[j])
        invariant forall j :: i <= j < 256 ==> pressed[j] == old(pressed[j])
      {
        if i != key && pressed[i] == sym {
          pressed[i] := NoSymbol;
        }
        i := i + 1;
      }
      pressed[key] := sym;
    }

    /** lorieKeysymKeyboardEvent with down clear. */
    method Release(sym: KeySym)
      requires Valid()
      modifies this`queued, pressed
      ensures Valid()
      ensures var i := FirstRecorded(old(pressed[..]), sym);
        queued == old(queued) + if i == 256 then [] else [KeyRelease(i)]
      ensures pressed[..] == Released(old(pressed[..]), sym)
    {
      var i := 0;
      while i < 256
        invariant i <= 256 && pressed[..] == old(pressed[..]) && queued == old(queued)
        invariant forall j :: 0 <= j < i ==> pressed[j] != sym
      {
        if pressed[i] == sym {
          assert FirstRecorded(pressed[..], sym) == i;
          pressed[i] := NoSymbol;
          queued := queued + [KeyRelease(i)];
          return;
        }
        i := i + 1;
      }
    }

    /** EVENT_UNICODE: press and release of one keysym.  Between such taps the table is empty. */
    method Tap(sym: KeySym, s: KeyboardState, held: set<KeyCode>) returns (o: Outcome)
      requires Valid() && Empty(pressed[..])
      modifies this`queued, editor, pressed
      ensures Valid() && Empty(pressed[..])
      ensures sym == NoSymbol ==> o == NoKey && queued == old(queued) + [KeyRelease(0)]
      ensures sym != NoSymbol ==> queued == old(queued) + TapTrace(o)
      ensures Accounted(editor.km, sym, s, held, o)
    {
      ghost var before := pressed[..];
      o := Press(sym, s, held);
      NothingTypedForNoSymbol(editor.km, sym, s, held, o);
      TapLookup(before, pressed[..], sym, o);
      Release(sym);
      Assoc(old(queued), Trace(o), if o.Typed? then [KeyRelease(o.key)] else []);
    }

    /** With plain modifiers, a typed key produces the keysym, or an equivalent one, under the modifiers that are in
        effect when the trace reaches its press; Tab is pressed with a held Shift as it is. */
    lemma TypedProduces(
      km: Keymap, sym: KeySym, s: KeyboardState, held: set<KeyCode>, locked: Mods, o: Outcome, mods: Mods)
      requires ValidKeymap(km) && PlainModifiers(km, locked, s) && InEffect(km, locked, held, s, s.mods)
      requires o.Typed? && Accounted(km, sym, s, held, o)
      requires InEffect(km, locked, HeldAfter(held, BeforeKey(o)), s, mods)
      ensures BeforeKey(o) + [KeyPress(o.key)] <= Trace(o) && mods == o.target.mods
      ensures sym != XK_Tab || !Has(s.mods, ShiftMask) ==>
        exists used :: Equivalent(used, sym) && Produces(km, o.key, s.(mods := mods), used)
    {
      KeyFollows(o);
      TargetReached(km, sym, s, held, locked, o, mods);
      TargetProduces(km, sym, s, o.key, o.target);
    }

    lemma TargetReached(
      km: Keymap, sym: KeySym, s: KeyboardState, held: set<KeyCode>, locked: Mods, o: Outcome, mods: Mods)
      requires ValidKeymap(km) && PlainModifiers(km, locked, s) && InEffect(km, locked, held, s, s.mods)
      requires o.Typed? && Accounted(km, sym, s, held, o)
      requires InEffect(km, locked, HeldAfter(held, Apply(o.shift) + Apply(o.level3)), s, mods)
      ensures mods == o.target.mods
    {
      var used, t :|
        && Fits(km, sym, s, o.key, t, used)
        && o.target == if sym == XK_Tab && Has(s.mods, ShiftMask) then t.(mods := t.mods | ShiftMask) else t;
      CandidatesToggle(km, s, t);
      WithShift(t.mods, LevelThree(km, s));
      TargetInEffect(km, held, locked, s, o.target, o.shift, o.level3, mods);
    }

    lemma TargetProduces(km: Keymap, sym: KeySym, s: KeyboardState, key: KeyCode, target: KeyboardState)
      requires ValidKeymap(km) && Chosen(km, sym, s, key, target)
      ensures key < 256
      ensures sym != XK_Tab || !Has(s.mods, ShiftMask) ==>
        exists used :: Equivalent(used, sym) && Produces(km, key, s.(mods := target.mods), used)
    {
      var used, t :|
        && Fits(km, sym, s, key, t, used)
        && target == if sym == XK_Tab && Has(s.mods, ShiftMask) then t.(mods := t.mods | ShiftMask) else t;
      assert sym != XK_Tab || !Has(s.mods, ShiftMask) ==> s.(mods := target.mods) == t;
    }

    /** With Shift held Tab never releases it; for every other keysym the target is a state that is tried. */
    lemma TabKeepsShift(km: Keymap, sym: KeySym, s: KeyboardState, held: set<KeyCode>, o: Outcome)
      requires ValidKeymap(km) && Accounted(km, sym, s, held, o) && !o.NoKey?
      ensures sym == XK_Tab && Has(s.mods, ShiftMask) ==> Has(o.target.mods, ShiftMask) && !o.shift.FakeRelease?
      ensures sym != XK_Tab ==> o.target in Candidates(km, s)
    {
      var used, t :|
        && Fits(km, sym, s, o.key, t, used)
        && o.target == if sym == XK_Tab && Has(s.mods, ShiftMask) then t.(mods := t.mods | ShiftMask) else t;
      ShiftRaised(t.mods);
    }

    /** The table works both ways, and all of it is searched. */
    lemma NoEquivalentIff(km: Keymap, sym: KeySym, s: KeyboardState)
      requires ValidKeymap(km)
      ensures NoEquivalent(km, sym, s, |alternatives|)
         <==> forall a :: (a, sym) in alternatives || (sym, a) in alternatives ==> NoAnswer(km, a, s)
    {
      if NoEquivalent(km, sym, s, |alternatives|) {
        forall a | (a, sym) in alternatives || (sym, a) in alternatives ensures NoAnswer(km, a, s) {
          var i: nat :| i < |alternatives| && (alternatives[i] == (a, sym) || alternatives[i] == (sym, a));
          assert Other(i, sym) == Some(a);
        }
      } else {
        var i: nat :| i < |alternatives| && Other(i, sym).Some? && !NoAnswer(km, Other(i, sym).value, s);
        assert alternatives[i] in alternatives;
      }
    }

    lemma NothingTypedForNoSymbol(km: Keymap, sym: KeySym, s: KeyboardState, held: set<KeyCode>, o: Outcome)
      requires Valid() && ValidKeymap(km) && Accounted(km, sym, s, held, o)
      ensures sym == NoSymbol ==> o.NoKey?
      ensures o.Typed? ==> o.key < 256
    {
      if !o.NoKey? {
        var used, t :| Fits(km, sym, s, o.key, t, used);
      }
    }
  }

  /** The events of a press and release of one keysym. */
  function TapTrace(o: Outcome): seq<Event> {
    Trace(o) + if o.Typed? then [KeyRelease(o.key)] else []
  }

  lemma NetOfOne(e: Event, key: KeyCode)
    ensures Net([e], key) == Weight(e, key)
  {
    assert [e][..0] == [];
  }

  /** A typed keysym leaves exactly its key down. */
  lemma TypedBalance(o: Outcome, key: KeyCode)
    requires o.Typed?
    ensures Net(Trace(o), key) == if key == o.key then 1 else 0
  {
    var a, b, c := Apply(o.shift), Apply(o.level3), [KeyPress(o.key)];
    NetConcat(a, b, key);
    NetConcat(a + b, c, key);
    NetConcat(a + b + c, Undo(o.level3), key);
    NetConcat(a + b + c + Undo(o.level3), Undo(o.shift), key);
    NetOfOne(KeyPress(o.key), key);
    UndoBalances(o.shift, key);
    UndoBalances(o.level3, key);
  }

  /** A whole tap leaves every key as it was. */
  lemma TapBalance(o: Outcome, key: KeyCode)
    requires o.Typed?
    ensures Net(TapTrace(o), key) == 0
  {
    TypedBalance(o, key);
    NetConcat(Trace(o), [KeyRelease(o.key)], key);
    NetOfOne(KeyRelease(o.key), key);
  }

  /** What had been queued when a press is given up: the Shift part, unless that was what could not be done. */
  ghost predicate StuckAfter(km: Keymap, held: set<KeyCode>, s: KeyboardState, t: KeyboardState, shift: Fake)
    requires ValidKeymap(km)
  {
    if ShiftStuck(km, held, s, t) then shift == NoFake else ShiftFake(km, held, s, t, shift)
  }

  /** A press that is given up leaves every key as it was if and only if Shift could not be faked or need not change. */
  lemma AbandonedBalance(km: Keymap, held: set<KeyCode>, s: KeyboardState, o: Outcome)
    requires ValidKeymap(km) && o.Stuck? && StuckAfter(km, held, s, o.target, o.shift)
    ensures (forall key :: Net(Trace(o), key) == 0)
       <==> ShiftStuck(km, held, s, o.target) || Has(s.mods, ShiftMask) == Has(o.target.mods, ShiftMask)
  {
    match o.shift
    case NoFake =>
    case FakePress(k) =>
      NetOfOne(KeyPress(k), k);
      assert Net(Trace(o), k) == 1;
    case FakeRelease(ks) =>
      NetOfReleases(ks, ks[0]);
      assert Net(Trace(o), ks[0]) < 0;
  }

  lemma {:induction false} NetOfReleases(keys: seq<KeyCode>, key: KeyCode)
    ensures Net(Releases(keys), key) <= 0 && (key in keys ==> Net(Releases(keys), key) < 0)
  {
    if keys != [] {
      var fewer := keys[..|keys| - 1];
      NetOfReleases(fewer, key);
      assert Releases(keys)[..|keys| - 1] == Releases(fewer);
      assert keys == fewer + [keys[|keys| - 1]];
    }
  }
}
