/**
 Symbol and action lookup in an XKB keymap (section 7.2 of the X Keyboard Extension Protocol Specification) and the
 search for a key that produces a keysym: XkbTranslateKeyCode, XkbKeyActionPtr, lorieGetLevelThreeMask and
 lorieKeysymToKeycode.
 */
module Keymap {
  import opened Options

  type KeySym = nat
  type KeyCode = nat
  type Mods = bv8

  const NoSymbol: KeySym := 0
  const XK_ISO_Level3_Shift: KeySym := 0xfe03
  const XK_Mode_switch: KeySym := 0xff7e

  const ShiftMask: Mods := 1
  const LockMask: Mods := 2

  predicate Has(mods: Mods, mask: Mods) { mods & mask != 0 }

  predicate OneBit(b: Mods) {
    b == 1 || b == 2 || b == 4 || b == 8 || b == 16 || b == 32 || b == 64 || b == 128
  }

  /** The core state word: eight modifier bits and the two group bits. */
  datatype KeyboardState = KeyboardState(mods: Mods, group: nat)

  datatype MapEntry = MapEntry(active: bool, mods: Mods, level: nat)

  datatype KeyType = KeyType(mask: Mods, entries: seq<MapEntry>, preserve: Option<seq<Mods>>)

  datatype OutOfRange = Wrap | Clamp | Redirect(target: nat)

  datatype KeyAction =
    | SetMods(useModMap: bool, mask: Mods)
    | LockMods(useModMap: bool, mask: Mods)
    | OtherAction

  /** One type per group; `width` symbols per group.  `tName`: its name starts with 'T', or there are no names. */
  datatype Key = Key(
    types: seq<KeyType>, outOfRange: OutOfRange, width: nat,
    syms: seq<KeySym>, actions: Option<seq<KeyAction>>, modmap: Mods, tName: bool)

  datatype Keymap = Keymap(
    minKey: KeyCode, maxKey: KeyCode, keys: seq<Key>,
    lower: KeySym -> KeySym, upper: KeySym -> KeySym)       // XkbConvertCase

  predicate ValidType(t: KeyType, width: nat) {
    && (forall i :: 0 <= i < |t.entries| ==> t.entries[i].level < width)
    && (t.preserve.Some? ==> |t.preserve.value| == |t.entries|)
  }

  predicate ValidKey(k: Key) {
    && k.width > 0
    && (forall g :: 0 <= g < |k.types| ==> ValidType(k.types[g], k.width))
    && |k.syms| >= |k.types| * k.width
    && (k.actions.Some? ==> |k.actions.value| >= |k.types| * k.width)
  }

  ghost predicate ValidKeymap(km: Keymap) {
    && 8 <= km.minKey <= km.maxKey <= 255 && |km.keys| == 256
    && (forall k :: 0 <= k < 256 ==> ValidKey(km.keys[k]))
    && (forall x :: x != NoSymbol ==> km.lower(x) != NoSymbol && km.upper(x) != NoSymbol)
  }

  predicate InRange(km: Keymap, key: KeyCode) { km.minKey <= key <= km.maxKey }

  // ----- one key -----

  /** a lies a whole number of times n above b. */
  predicate Multiples(a: nat, b: nat, n: nat, q: nat) { a == q * n + b }

  function EffectiveGroup(k: Key, group: nat): (g: nat)
    requires |k.types| > 0
    ensures g < |k.types|
    ensures group < |k.types| ==> g == group
    ensures group >= |k.types| && k.outOfRange.Wrap? ==> exists q: nat :: Multiples(group, g, |k.types|, q)
    ensures group >= |k.types| && k.outOfRange.Clamp? ==> g + 1 == |k.types|
    ensures group >= |k.types| && k.outOfRange.Redirect? ==>
      g == k.outOfRange.target || (g == 0 && k.outOfRange.target >= |k.types|)
  {
    if group < |k.types| then group
    else
      match k.outOfRange
      case Wrap =>
        assert Multiples(group, group % |k.types|, |k.types|, group / |k.types|);
        group % |k.types|
      case Clamp => |k.types| - 1
      case Redirect(n) => if n < |k.types| then n else 0
  }

  predicate Matches(t: KeyType, mods: Mods, i: nat)
    requires i < |t.entries|
  {
    t.entries[i].active && mods & t.mask == t.entries[i].mods
  }

  /** The first matching entry at or after `from`, or the number of entries. */
  function FirstMatch(t: KeyType, mods: Mods, from: nat): (i: nat)
    requires from <= |t.entries|
    ensures from <= i <= |t.entries|
    ensures i < |t.entries| ==> Matches(t, mods, i)
    ensures forall j :: from <= j < i ==> !Matches(t, mods, j)
    decreases |t.entries| - from
  {
    if from == |t.entries| || Matches(t, mods, from) then from else FirstMatch(t, mods, from + 1)
  }

  function Level(t: KeyType, mods: Mods): nat {
    var i := FirstMatch(t, mods, 0);
    if i < |t.entries| then t.entries[i].level else 0
  }

  lemma RowFits(g: nat, n: nat, width: nat)
    requires g < n
    ensures g * width + width <= n * width
  {
    if g + 1 < n {
      RowFits(g, n - 1, width);
    }
    assert n * width == (n - 1) * width + width;
  }

  function Column(k: Key, s: KeyboardState): (col: nat)
    requires ValidKey(k) && |k.types| > 0
    ensures col < |k.types| * k.width
  {
    var g := EffectiveGroup(k, s.group);
    RowFits(g, |k.types|, k.width);
    g * k.width + Level(k.types[g], s.mods)
  }

  /** The modifiers the key's type looks at, less the preserved ones. */
  function Consumed(k: Key, s: KeyboardState): Mods
    requires ValidKey(k) && |k.types| > 0
  {
    var t := k.types[EffectiveGroup(k, s.group)];
    var i := FirstMatch(t, s.mods, 0);
    if i < |t.entries| && t.preserve.Some? then t.mask & !t.preserve.value[i] else t.mask
  }

  /** XkbTranslateKeyCode's loop: first active entry whose modifiers match. */
  method FindEntry(t: KeyType, mods: Mods) returns (i: nat)
    ensures i == FirstMatch(t, mods, 0)
  {
    i := 0;
    while i < |t.entries|
      invariant i <= |t.entries| && FirstMatch(t, mods, 0) == FirstMatch(t, mods, i)
    {
      if Matches(t, mods, i) {
        return;
      }
      i := i + 1;
    }
  }

  /** The symbol of a key in a state; NoSymbol for a key without groups or outside the keymap. */
  function Symbol(km: Keymap, key: KeyCode, s: KeyboardState): KeySym
    requires ValidKeymap(km) && key < 256
  {
    var k := km.keys[key];
    if !InRange(km, key) || |k.types| == 0 then NoSymbol else k.syms[Column(k, s)]
  }

  function ConsumedBy(km: Keymap, key: KeyCode, s: KeyboardState): Mods
    requires ValidKeymap(km) && key < 256
  {
    var k := km.keys[key];
    if !InRange(km, key) || |k.types| == 0 then 0 else Consumed(k, s)
  }

  method TranslateKeyCode(km: Keymap, key: KeyCode, s: KeyboardState) returns (sym: KeySym, consumed: Mods)
    requires ValidKeymap(km) && key < 256
    ensures sym == Symbol(km, key, s) && consumed == ConsumedBy(km, key, s)
  {
    var k := km.keys[key];
    if !InRange(km, key) || |k.types| == 0 {
      return NoSymbol, 0;
    }
    var g := EffectiveGroup(k, s.group);
    var t := k.types[g];
    var i := FindEntry(t, s.mods);
    ghost var column := Column(k, s);
    var col := g * k.width;
    consumed := t.mask;
    if i < |t.entries| {
      col := col + t.entries[i].level;
      if t.preserve.Some? {
        consumed := t.mask & !t.preserve.value[i];
      }
    }
    sym := k.syms[col];
  }

  /** XkbKeyActionPtr */
  function ActionOf(km: Keymap, key: KeyCode, s: KeyboardState): Option<KeyAction>
    requires ValidKeymap(km) && key < 256
  {
    var k := km.keys[key];
    if k.actions.None? || !InRange(km, key) || |k.types| == 0 then None
    else Some(k.actions.value[Column(k, s)])
  }

  /** The modifiers a SetMods key sets while it is held; no other key counts. */
  function ModsOf(km: Keymap, key: KeyCode, s: KeyboardState): Mods
    requires ValidKeymap(km) && key < 256
  {
    match ActionOf(km, key, s)
    case Some(SetMods(useModMap, mask)) => if useModMap then km.keys[key].modmap else mask
    case _ => 0
  }

  // ----- the search -----

  /** A symbol after the capitalisation that an unconsumed Lock asks for. */
  function Capitalised(km: Keymap, ks: KeySym, mods: Mods, consumed: Mods): KeySym {
    if mods & !consumed & LockMask != 0 then km.upper(ks) else ks
  }

  predicate Produces(km: Keymap, key: KeyCode, s: KeyboardState, sym: KeySym)
    requires ValidKeymap(km) && key < 256
  {
    var ks := Symbol(km, key, s);
    ks != NoSymbol && sym == Capitalised(km, ks, s.mods, ConsumedBy(km, key, s))
  }

  const FakeKeys: seq<KeyCode> := [92, 203, 204, 205, 206, 207]

  predicate Fake(key: KeyCode) { key in FakeKeys }

  ghost predicate NoneProduces(km: Keymap, sym: KeySym, s: KeyboardState)
    requires ValidKeymap(km)
  {
    forall k :: InRange(km, k) ==> !Produces(km, k, s, sym)
  }

  /** `key` is the right answer for one fixed state: the lowest producing key that a real keyboard sends, else the
      lowest producing key at all, else 0. */
  ghost predicate IsBest(km: Keymap, sym: KeySym, s: KeyboardState, key: KeyCode)
    requires ValidKeymap(km)
  {
    if key == 0 then NoneProduces(km, sym, s)
    else
      && InRange(km, key) && Produces(km, key, s, sym)
      && (forall k :: InRange(km, k) && Produces(km, k, s, sym) ==>
            if Fake(k) then Fake(key) ==> key <= k else !Fake(key) && key <= k)
  }

  lemma BestIsUnique(km: Keymap, sym: KeySym, s: KeyboardState, a: KeyCode, b: KeyCode)
    requires ValidKeymap(km) && IsBest(km, sym, s, a) && IsBest(km, sym, s, b)
    ensures a == b
  {
    assert a != 0 ==> InRange(km, a) && Produces(km, a, s, sym);
    assert b != 0 ==> InRange(km, b) && Produces(km, b, s, sym);
  }

  /** Best answer as a function, for use in specifications. */
  ghost function Best(km: Keymap, sym: KeySym, s: KeyboardState): (key: KeyCode)
    requires ValidKeymap(km)
    ensures IsBest(km, sym, s, key)
  {
    BestExists(km, sym, s);
    var key :| IsBest(km, sym, s, key); key
  }

  lemma BestExists(km: Keymap, sym: KeySym, s: KeyboardState)
    requires ValidKeymap(km)
    ensures exists key :: IsBest(km, sym, s, key)
  {
    var genuine := LowestFrom(km, sym, s, false, km.minKey);
    var fake := LowestFrom(km, sym, s, true, km.minKey);
    assert IsBest(km, sym, s, if genuine <= km.maxKey then genuine else if fake <= km.maxKey then fake else 0);
  }

  ghost function LowestFrom(km: Keymap, sym: KeySym, s: KeyboardState, fake: bool, from: KeyCode): (k: KeyCode)
    requires ValidKeymap(km) && km.minKey <= from <= km.maxKey + 1
    ensures from <= k <= km.maxKey + 1
    ensures k <= km.maxKey ==> Fake(k) == fake && Produces(km, k, s, sym)
    ensures forall j :: from <= j < k && Fake(j) == fake ==> !Produces(km, j, s, sym)
    decreases km.maxKey + 1 - from
  {
    if from == km.maxKey + 1 || (Fake(from) == fake && Produces(km, from, s, sym)) then from
    else LowestFrom(km, sym, s, fake, from + 1)
  }

  /** lorieKeysymToKeycode without a place for the new state: the loop over all keys. */
  method FindKey(km: Keymap, sym: KeySym, s: KeyboardState) returns (key: KeyCode)
    requires ValidKeymap(km)
    ensures key == Best(km, sym, s)
  {
    key := SearchKeys(km, sym, s);
    BestIsUnique(km, sym, s, key, Best(km, sym, s));
  }

  method SearchKeys(km: Keymap, sym: KeySym, s: KeyboardState) returns (key: KeyCode)
    requires ValidKeymap(km)
    ensures IsBest(km, sym, s, key)
  {
    var fallback: KeyCode := 0;
    key := km.minKey;
    while key <= km.maxKey
      invariant km.minKey <= key <= km.maxKey + 1
      invariant forall k :: km.minKey <= k < key && Produces(km, k, s, sym) ==>
        Fake(k) && fallback != 0 && fallback <= k
      invariant fallback != 0 ==> km.minKey <= fallback < key && Fake(fallback) && Produces(km, fallback, s, sym)
    {
      var ks, consumed := TranslateKeyCode(km, key, s);
      if ks != NoSymbol && Capitalised(km, ks, s.mods, consumed) == sym {
        if !Fake(key) {
          return;
        }
        if fallback == 0 {
          fallback := key;
        }
      }
      key := key + 1;
    }
    key := fallback;
  }

  function Toggled(mods: Mods, mask: Mods): Mods {
    (mods & !mask) | (if mods & mask != 0 then 0 else mask)
  }

  /** What the level-three key sets, found with all modifiers up. */
  ghost function LevelThree(km: Keymap, s: KeyboardState): Mods
    requires ValidKeymap(km)
  {
    var plain := s.(mods := 0);
    var k := Best(km, XK_ISO_Level3_Shift, plain);
    var key := if k != 0 then k else Best(km, XK_Mode_switch, plain);
    if key == 0 then 0 else ModsOf(km, key, plain)
  }

  method LevelThreeMask(km: Keymap, s: KeyboardState) returns (mask: Mods)
    requires ValidKeymap(km)
    ensures mask == LevelThree(km, s)
  {
    var plain := s.(mods := 0);
    var key := FindKey(km, XK_ISO_Level3_Shift, plain);
    if key == 0 {
      key := FindKey(km, XK_Mode_switch, plain);
      if key == 0 {
        return 0;
      }
    }
    var act := ActionOf(km, key, plain);
    if act.None? || !act.value.SetMods? {
      return 0;
    }
    return if act.value.useModMap then km.keys[key].modmap else act.value.mask;
  }

  function ToggledBoth(mods: Mods, l3: Mods): Mods {
    (mods & !(ShiftMask | l3))
    | (if mods & ShiftMask != 0 then 0 else ShiftMask)
    | (if mods & l3 != 0 then 0 else l3)
  }

  /** The states that are tried, in order, for a level-three mask. */
  function CandidatesWith(s: KeyboardState, l3: Mods): (cs: seq<KeyboardState>)
    ensures |cs| == if l3 == 0 then 2 else 4
  {
    if l3 == 0 then [s, s.(mods := Toggled(s.mods, ShiftMask))]
    else
      [s, s.(mods := Toggled(s.mods, ShiftMask)), s.(mods := Toggled(s.mods, l3)),
       s.(mods := ToggledBoth(s.mods, l3))]
  }

  ghost function Candidates(km: Keymap, s: KeyboardState): seq<KeyboardState>
    requires ValidKeymap(km)
  {
    CandidatesWith(s, LevelThree(km, s))
  }

  /** The states differ in nothing but Shift and level three. */
  ghost predicate OnlyToggled(km: Keymap, s: KeyboardState, t: KeyboardState)
    requires ValidKeymap(km)
  {
    t.group == s.group && t.mods & !(ShiftMask | LevelThree(km, s)) == s.mods & !(ShiftMask | LevelThree(km, s))
  }

  /** The best key in each of the states. */
  ghost function Answers(km: Keymap, sym: KeySym, cs: seq<KeyboardState>): seq<KeyCode>
    requires ValidKeymap(km)
  {
    seq(|cs|, i requires 0 <= i < |cs| => Best(km, sym, cs[i]))
  }

  ghost predicate IsFirst(answers: seq<KeyCode>, i: nat) {
    i < |answers| && answers[i] != 0 && forall j :: 0 <= j < i ==> answers[j] == 0
  }

  /** (key, t) is the first answer and its state, or key is 0 and there is none. */
  ghost predicate FirstOf(cs: seq<KeyboardState>, answers: seq<KeyCode>, key: KeyCode, t: KeyboardState)
    requires |cs| == |answers|
  {
    if key == 0 then forall i :: 0 <= i < |answers| ==> answers[i] == 0
    else exists i: nat :: IsFirst(answers, i) && t == cs[i] && key == answers[i]
  }

  /** The search answers with the first state in which any key produces the symbol, and the best key there. */
  ghost predicate IsAnswer(km: Keymap, sym: KeySym, s: KeyboardState, key: KeyCode, t: KeyboardState)
    requires ValidKeymap(km)
  {
    FirstOf(Candidates(km, s), Answers(km, sym, Candidates(km, s)), key, t)
  }

  lemma FirstFound(cs: seq<KeyboardState>, answers: seq<KeyCode>, i: nat)
    requires |cs| == |answers| && IsFirst(answers, i)
    ensures FirstOf(cs, answers, answers[i], cs[i])
  {}

  /** lorieKeysymToKeycode */
  method KeysymToKeycode(km: Keymap, sym: KeySym, s: KeyboardState) returns (key: KeyCode, t: KeyboardState)
    requires ValidKeymap(km)
    ensures IsAnswer(km, sym, s, key, t) && t.group == s.group
  {
    ghost var cs := Candidates(km, s);
    ghost var answers := Answers(km, sym, cs);
    t := s;
    key := FindKey(km, sym, t);
    if key != 0 {
      FirstFound(cs, answers, 0);
      return;
    }
    t := s.(mods := Toggled(s.mods, ShiftMask));
    key := FindKey(km, sym, t);
    if key != 0 {
      FirstFound(cs, answers, 1);
      return;
    }
    var l3 := LevelThreeMask(km, s);
    key, t := KeyWithLevelThree(km, sym, s, l3);
  }

  /** The rest of lorieKeysymToKeycode, after the first two states. */
  method KeyWithLevelThree(km: Keymap, sym: KeySym, s: KeyboardState, l3: Mods)
    returns (key: KeyCode, t: KeyboardState)
    requires ValidKeymap(km)
    requires Best(km, sym, s) == 0 && Best(km, sym, s.(mods := Toggled(s.mods, ShiftMask))) == 0
    ensures FirstOf(CandidatesWith(s, l3), Answers(km, sym, CandidatesWith(s, l3)), key, t) && t.group == s.group
  {
    if l3 == 0 {
      return 0, s.(mods := Toggled(s.mods, ShiftMask));
    }
    t := s.(mods := Toggled(s.mods, l3));
    key := FindKey(km, sym, t);
    ghost var third := key;
    if key == 0 {
      t := s.(mods := ToggledBoth(s.mods, l3));
      key := FindKey(km, sym, t);
    }
    ghost var answers := Answers(km, sym, CandidatesWith(s, l3));
    assert answers[0] == 0 && answers[1] == 0 && answers[2] == third;
    FirstOfFour(CandidatesWith(s, l3), answers, key, t);
  }

  lemma FirstOfFour(cs: seq<KeyboardState>, answers: seq<KeyCode>, key: KeyCode, t: KeyboardState)
    requires |cs| == |answers| == 4 && answers[0] == 0 && answers[1] == 0
    requires if answers[2] != 0 then key == answers[2] && t == cs[2] else key == answers[3] && t == cs[3]
    ensures FirstOf(cs, answers, key, t)
  {
    if answers[2] != 0 {
      FirstFound(cs, answers, 2);
    } else if key != 0 {
      FirstFound(cs, answers, 3);
    }
  }

  /** No candidate state has a key for the symbol. */
  ghost predicate NoAnswer(km: Keymap, sym: KeySym, s: KeyboardState)
    requires ValidKeymap(km)
  {
    IsAnswer(km, sym, s, 0, s)
  }

  /** A found key is a key of the map and produces the symbol under the returned state. */
  lemma AnswerProduces(km: Keymap, sym: KeySym, s: KeyboardState, key: KeyCode, t: KeyboardState)
    requires ValidKeymap(km) && IsAnswer(km, sym, s, key, t) && key != 0
    ensures InRange(km, key) && Produces(km, key, t, sym) && t in Candidates(km, s)
  {}

  /** The answer is determined, so the search is a function of the keymap, the symbol and the state. */
  lemma AnswerIsUnique(
    km: Keymap, sym: KeySym, s: KeyboardState, a: KeyCode, t: KeyboardState, b: KeyCode, u: KeyboardState)
    requires ValidKeymap(km) && IsAnswer(km, sym, s, a, t) && IsAnswer(km, sym, s, b, u)
    ensures a == b && (a != 0 && b != 0 ==> t == u)
  {
    var cs := Candidates(km, s);
    var answers := Answers(km, sym, cs);
    if a != 0 && b != 0 {
      var i: nat :| IsFirst(answers, i) && t == cs[i] && a == answers[i];
      var j: nat :| IsFirst(answers, j) && u == cs[j] && b == answers[j];
      assert i == j;
    }
  }

  /** The first two candidates are the state itself and Shift toggled. */
  lemma FirstTwoAnswers(km: Keymap, sym: KeySym, s: KeyboardState)
    requires ValidKeymap(km)
    ensures var t := s.(mods := Toggled(s.mods, ShiftMask));
      && (Best(km, sym, s) != 0 ==> IsAnswer(km, sym, s, Best(km, sym, s), s))
      && (Best(km, sym, s) == 0 && Best(km, sym, t) != 0 ==> IsAnswer(km, sym, s, Best(km, sym, t), t))
  {
    var cs := Candidates(km, s);
    var answers := Answers(km, sym, cs);
    if answers[0] != 0 {
      FirstFound(cs, answers, 0);
    } else if answers[1] != 0 {
      FirstFound(cs, answers, 1);
    }
  }

  lemma AnswerZero(km: Keymap, sym: KeySym, s: KeyboardState, key: KeyCode, t: KeyboardState)
    requires ValidKeymap(km) && IsAnswer(km, sym, s, key, t)
    ensures key == 0 <==> NoAnswer(km, sym, s)
  {
    if NoAnswer(km, sym, s) {
      AnswerIsUnique(km, sym, s, key, t, 0, s);
    }
  }
}
