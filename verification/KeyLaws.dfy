/**
 What keymap lookup and search amount to, apart from how they are computed: which states the search covers and which it
 prefers, and what Lock, inactive entries, modifier maps and NumLock do.
 */
module KeyLaws {
  import opened Options
  import opened Keymap
  import opened KeyInjection

  // ----- the states that are tried -----

  predicate FlipsShift(a: Mods, b: Mods) {
    b & !ShiftMask == a & !ShiftMask && (Has(b, ShiftMask) <==> !Has(a, ShiftMask))
  }

  /** All bits of the mask are cleared if one was set, and set if none was. */
  predicate FlipsMask(a: Mods, b: Mods, mask: Mods) {
    b & !mask == a & !mask && b & mask == if Has(a, mask) then 0 else mask
  }

  /** Where the mask contains Shift, a bit that one of the two raises stays up. */
  predicate FlipsBoth(a: Mods, b: Mods, mask: Mods) {
    && b & !(ShiftMask | mask) == a & !(ShiftMask | mask)
    && (Has(b, ShiftMask) <==> !Has(a, ShiftMask) || (!Has(a, mask) && Has(mask, ShiftMask)))
    && (Has(b, mask) <==> !Has(a, mask) || (!Has(a, ShiftMask) && Has(mask, ShiftMask)))
  }

  /** For every state and every level-three mask, also one of several bits or one that contains Shift. */
  lemma CandidateStates(s: KeyboardState, l3: Mods)
    ensures var cs := CandidatesWith(s, l3);
      && cs[0] == s && FlipsShift(s.mods, cs[1].mods)
      && (l3 != 0 ==> FlipsMask(s.mods, cs[2].mods, l3) && FlipsBoth(s.mods, cs[3].mods, l3))
      && forall c :: c in cs ==> c.group == s.group
  {
    ShiftToggled(s.mods);
    if l3 != 0 {
      LevelThreeToggled(s.mods, l3);
      BothToggled(s.mods, l3);
    }
  }

  lemma ShiftToggled(m: Mods)
    ensures FlipsShift(m, Toggled(m, ShiftMask))
  {}

  lemma LevelThreeToggled(m: Mods, l3: Mods)
    ensures FlipsMask(m, Toggled(m, l3), l3)
  {}

  lemma BothToggled(m: Mods, l3: Mods)
    requires l3 != 0
    ensures FlipsBoth(m, ToggledBoth(m, l3), l3)
  {}

  /** A state by its Shift bit, its level-three bit and the rest. */
  lemma StateByBits(a: Mods, b: Mods, l3: Mods)
    requires (l3 == 0 || OneBit(l3)) && l3 != ShiftMask && a & !(ShiftMask | l3) == b & !(ShiftMask | l3)
    requires Has(a, ShiftMask) == Has(b, ShiftMask) && Has(a, l3) == Has(b, l3)
    ensures a == b
  {}

  /** How much a state differs: Shift counts 1, level three counts 2. */
  function Change(a: Mods, b: Mods, l3: Mods): nat {
    (if Has(a, ShiftMask) == Has(b, ShiftMask) then 0 else 1) + (if Has(a, l3) == Has(b, l3) then 0 else 2)
  }

  lemma CandidateByChange(s: KeyboardState, l3: Mods, i: nat)
    requires (l3 == 0 || OneBit(l3)) && l3 != ShiftMask && i < |CandidatesWith(s, l3)|
    ensures var c := CandidatesWith(s, l3)[i];
      && Change(s.mods, c.mods, l3) == i && c.group == s.group
      && c.mods & !(ShiftMask | l3) == s.mods & !(ShiftMask | l3)
  {
    if i == 0 {
      NothingChanges(s.mods, l3);
    } else if i == 1 {
      ShiftChanges(s.mods, l3);
    } else if i == 2 {
      LevelThreeChanges(s.mods, l3);
    } else {
      BothChange(s.mods, l3);
    }
  }

  lemma NothingChanges(m: Mods, l3: Mods)
    ensures Change(m, m, l3) == 0
  {}

  lemma ShiftChanges(m: Mods, l3: Mods)
    requires (l3 == 0 || OneBit(l3)) && l3 != ShiftMask
    ensures var c := Toggled(m, ShiftMask); Change(m, c, l3) == 1 && c & !(ShiftMask | l3) == m & !(ShiftMask | l3)
  {}

  lemma LevelThreeChanges(m: Mods, l3: Mods)
    requires OneBit(l3) && l3 != ShiftMask
    ensures var c := Toggled(m, l3); Change(m, c, l3) == 2 && c & !(ShiftMask | l3) == m & !(ShiftMask | l3)
  {}

  lemma BothChange(m: Mods, l3: Mods)
    requires OneBit(l3) && l3 != ShiftMask
    ensures var c := ToggledBoth(m, l3); Change(m, c, l3) == 3 && c & !(ShiftMask | l3) == m & !(ShiftMask | l3)
  {}

  /** With a one-bit level three every state that differs in nothing but Shift and level three is tried, at the place
      its change gives. */
  lemma CandidatesComplete(km: Keymap, s: KeyboardState, u: KeyboardState)
    requires ValidKeymap(km) && OnlyToggled(km, s, u)
    requires (LevelThree(km, s) == 0 || OneBit(LevelThree(km, s))) && LevelThree(km, s) != ShiftMask
    ensures var i, cs := Change(s.mods, u.mods, LevelThree(km, s)), Candidates(km, s); i < |cs| && cs[i] == u
  {
    CandidateAtChange(s, LevelThree(km, s), u);
  }

  lemma CandidateAtChange(s: KeyboardState, l3: Mods, u: KeyboardState)
    requires (l3 == 0 || OneBit(l3)) && l3 != ShiftMask
    requires u.group == s.group && u.mods & !(ShiftMask | l3) == s.mods & !(ShiftMask | l3)
    ensures var i, cs := Change(s.mods, u.mods, l3), CandidatesWith(s, l3); i < |cs| && cs[i] == u
  {
    var i := Change(s.mods, u.mods, l3);
    ChangeInRange(s.mods, u.mods, l3);
    CandidateByChange(s, l3, i);
    var c := CandidatesWith(s, l3)[i];
    SameChange(s.mods, c.mods, u.mods, l3);
    StateByBits(c.mods, u.mods, l3);
  }

  lemma ChangeInRange(a: Mods, b: Mods, l3: Mods)
    ensures Change(a, b, l3) < if l3 == 0 then 2 else 4
  {}

  lemma SameChange(a: Mods, b: Mods, c: Mods, l3: Mods)
    requires Change(a, b, l3) == Change(a, c, l3)
    ensures Has(b, ShiftMask) == Has(c, ShiftMask) && Has(b, l3) == Has(c, l3)
  {}

  /** The search fails if and only if no state that differs in nothing but Shift and level three has a key. */
  lemma NoAnswerIff(km: Keymap, sym: KeySym, s: KeyboardState)
    requires ValidKeymap(km)
    requires (LevelThree(km, s) == 0 || OneBit(LevelThree(km, s))) && LevelThree(km, s) != ShiftMask
    ensures NoAnswer(km, sym, s) <==> forall u :: OnlyToggled(km, s, u) ==> NoneProduces(km, sym, u)
  {
    var cs := Candidates(km, s);
    var answers := Answers(km, sym, cs);
    if NoAnswer(km, sym, s) {
      forall u | OnlyToggled(km, s, u) ensures NoneProduces(km, sym, u) {
        NothingWithoutAnswer(km, sym, s, u);
      }
    } else {
      var i :| 0 <= i < |answers| && answers[i] != 0;
      AnsweredByToggling(km, sym, s, i);
    }
  }

  lemma NothingWithoutAnswer(km: Keymap, sym: KeySym, s: KeyboardState, u: KeyboardState)
    requires ValidKeymap(km) && OnlyToggled(km, s, u) && NoAnswer(km, sym, s)
    requires (LevelThree(km, s) == 0 || OneBit(LevelThree(km, s))) && LevelThree(km, s) != ShiftMask
    ensures NoneProduces(km, sym, u)
  {
    CandidatesComplete(km, s, u);
    var i, cs := Change(s.mods, u.mods, LevelThree(km, s)), Candidates(km, s);
    assert Answers(km, sym, cs)[i] == Best(km, sym, cs[i]);
  }

  lemma AnsweredByToggling(km: Keymap, sym: KeySym, s: KeyboardState, i: nat)
    requires ValidKeymap(km) && i < |Candidates(km, s)| && Best(km, sym, Candidates(km, s)[i]) != 0
    requires (LevelThree(km, s) == 0 || OneBit(LevelThree(km, s))) && LevelThree(km, s) != ShiftMask
    ensures exists u :: OnlyToggled(km, s, u) && !NoneProduces(km, sym, u)
  {
    var u := Candidates(km, s)[i];
    CandidateByChange(s, LevelThree(km, s), i);
    assert OnlyToggled(km, s, u);
    var key := Best(km, sym, u);
    assert InRange(km, key) && Produces(km, key, u, sym);
  }

  /** The answer changes as little as possible: no state with a smaller change has a key for the symbol. */
  lemma AnswerIsLeastChange(km: Keymap, sym: KeySym, s: KeyboardState, key: KeyCode, t: KeyboardState, u: KeyboardState)
    requires ValidKeymap(km) && IsAnswer(km, sym, s, key, t) && key != 0
    requires (LevelThree(km, s) == 0 || OneBit(LevelThree(km, s))) && LevelThree(km, s) != ShiftMask
    requires OnlyToggled(km, s, u) && !NoneProduces(km, sym, u)
    ensures Change(s.mods, t.mods, LevelThree(km, s)) <= Change(s.mods, u.mods, LevelThree(km, s))
  {
    var l3, cs := LevelThree(km, s), Candidates(km, s);
    var answers := Answers(km, sym, cs);
    var i: nat :| IsFirst(answers, i) && t == cs[i] && key == answers[i];
    CandidateByChange(s, l3, i);
    AnsweredAtChange(km, sym, s, u);
  }

  lemma AnsweredAtChange(km: Keymap, sym: KeySym, s: KeyboardState, u: KeyboardState)
    requires ValidKeymap(km) && OnlyToggled(km, s, u) && !NoneProduces(km, sym, u)
    requires (LevelThree(km, s) == 0 || OneBit(LevelThree(km, s))) && LevelThree(km, s) != ShiftMask
    ensures var j, answers := Change(s.mods, u.mods, LevelThree(km, s)), Answers(km, sym, Candidates(km, s));
      j < |answers| && answers[j] != 0
  {
    CandidatesComplete(km, s, u);
  }

  /** The level-three mask is that of the best ISO_Level3_Shift key, and without one that of the best Mode_switch
      key. */
  lemma LevelThreeFallsBack(km: Keymap, s: KeyboardState, key: KeyCode)
    requires ValidKeymap(km) && key != 0
    ensures var plain := s.(mods := 0);
      && (IsBest(km, XK_ISO_Level3_Shift, plain, key) ==> LevelThree(km, s) == ModsOf(km, key, plain))
      && (NoneProduces(km, XK_ISO_Level3_Shift, plain) && IsBest(km, XK_Mode_switch, plain, key) ==>
            LevelThree(km, s) == ModsOf(km, key, plain))
  {
    var plain := s.(mods := 0);
    if IsBest(km, XK_ISO_Level3_Shift, plain, key) {
      BestIsUnique(km, XK_ISO_Level3_Shift, plain, key, Best(km, XK_ISO_Level3_Shift, plain));
    } else if NoneProduces(km, XK_ISO_Level3_Shift, plain) && IsBest(km, XK_Mode_switch, plain, key) {
      BestIsUnique(km, XK_ISO_Level3_Shift, plain, 0, Best(km, XK_ISO_Level3_Shift, plain));
      BestIsUnique(km, XK_Mode_switch, plain, key, Best(km, XK_Mode_switch, plain));
    }
  }

  /** The key that is pressed for level three: while that is up, the best ISO_Level3_Shift key in the current state, and
      without one the best Mode_switch key, provided it sets modifiers. */
  lemma LevelThreePressFallsBack(km: Keymap, s: KeyboardState, key: KeyCode)
    requires ValidKeymap(km) && key != 0 && LevelThree(km, s) != 0 && !Has(s.mods, LevelThree(km, s))
    requires
      || IsBest(km, XK_ISO_Level3_Shift, s, key)
      || (NoneProduces(km, XK_ISO_Level3_Shift, s) && IsBest(km, XK_Mode_switch, s, key))
    ensures LevelThreePress(km, s)
         == match ActionOf(km, key, s) { case Some(SetMods(_, _)) => key case _ => 0 }
  {
    if IsBest(km, XK_ISO_Level3_Shift, s, key) {
      BestIsUnique(km, XK_ISO_Level3_Shift, s, key, Best(km, XK_ISO_Level3_Shift, s));
    } else {
      BestIsUnique(km, XK_ISO_Level3_Shift, s, 0, Best(km, XK_ISO_Level3_Shift, s));
      BestIsUnique(km, XK_Mode_switch, s, key, Best(km, XK_Mode_switch, s));
    }
  }

  // ----- key types -----

  function Active(entries: seq<MapEntry>): seq<MapEntry> {
    if entries == [] then [] else (if entries[0].active then [entries[0]] else []) + Active(entries[1..])
  }

  /** The level of the first entry whose modifiers are exactly the ones wanted, 0 without one. */
  function FirstLevel(entries: seq<MapEntry>, wanted: Mods): nat {
    if entries == [] then 0
    else if entries[0].mods == wanted then entries[0].level
    else FirstLevel(entries[1..], wanted)
  }

  lemma {:induction false} LevelFrom(t: KeyType, mods: Mods, wanted: Mods, from: nat)
    requires from <= |t.entries|
    requires forall i | 0 <= i < |t.entries| ::
      Matches(t, mods, i) <==> t.entries[i].active && t.entries[i].mods == wanted
    ensures var i := FirstMatch(t, mods, from);
      (if i < |t.entries| then t.entries[i].level else 0) == FirstLevel(Active(t.entries[from..]), wanted)
    decreases |t.entries| - from
  {
    if from < |t.entries| {
      var e, rest := t.entries[from], t.entries[from + 1..];
      ActiveHead(e, rest, wanted);
      assert t.entries[from..] == [e] + rest;
      if !Matches(t, mods, from) {
        LevelFrom(t, mods, wanted, from + 1);
      }
    }
  }

  lemma ActiveHead(e: MapEntry, rest: seq<MapEntry>, wanted: Mods)
    ensures FirstLevel(Active([e] + rest), wanted)
         == if e.active && e.mods == wanted then e.level else FirstLevel(Active(rest), wanted)
  {
    assert ([e] + rest)[1..] == rest;
    if e.active {
      assert Active([e] + rest) == [e] + Active(rest) && ([e] + Active(rest))[1..] == Active(rest);
    } else {
      assert Active([e] + rest) == Active(rest);
    }
  }

  /** Inactive entries are as good as absent, and bits outside the type's mask do not matter. */
  lemma LevelIsThatOfActive(t: KeyType, mods: Mods)
    ensures Level(t, mods) == FirstLevel(Active(t.entries), mods & t.mask)
  {
    LevelFrom(t, mods, mods & t.mask, 0);
    assert t.entries[0..] == t.entries;
  }

  /** A modifier the type does not look at does not change the symbol of a key. */
  lemma SymbolIgnores(km: Keymap, key: KeyCode, s: KeyboardState, mods: Mods)
    requires ValidKeymap(km) && InRange(km, key) && |km.keys[key].types| > 0
    requires var mask := km.keys[key].types[EffectiveGroup(km.keys[key], s.group)].mask; mods & mask == s.mods & mask
    ensures Symbol(km, key, s.(mods := mods)) == Symbol(km, key, s)
  {
    var k := km.keys[key];
    var t := k.types[EffectiveGroup(k, s.group)];
    LevelIsThatOfActive(t, mods);
    LevelIsThatOfActive(t, s.mods);
    assert Column(k, s.(mods := mods)) == Column(k, s);
  }

  // ----- Lock -----

  /** Lock on a key whose type does not look at it gives the upper case of what the key gives without. */
  lemma LockCapitalises(km: Keymap, key: KeyCode, s: KeyboardState, x: KeySym)
    requires ValidKeymap(km) && InRange(km, key) && |km.keys[key].types| > 0
    requires !Has(km.keys[key].types[EffectiveGroup(km.keys[key], s.group)].mask, LockMask)
    ensures Produces(km, key, s.(mods := s.mods | LockMask), x)
       <==> exists plain :: Produces(km, key, s.(mods := s.mods & !LockMask), plain) && x == km.upper(plain)
  {
    var locked, plain := s.(mods := s.mods | LockMask), s.(mods := s.mods & !LockMask);
    var k := km.keys[key];
    var mask := k.types[EffectiveGroup(k, s.group)].mask;
    ConsumesOfMask(k, locked);
    ConsumesOfMask(k, plain);
    LockBits(s.mods, mask, Consumed(k, locked), Consumed(k, plain));
    SymbolIgnores(km, key, s, locked.mods);
    SymbolIgnores(km, key, s, plain.mods);
    LockedAndPlain(km, key, locked, plain, x);
  }

  lemma ConsumesOfMask(k: Key, s: KeyboardState)
    requires ValidKey(k) && |k.types| > 0
    ensures Consumed(k, s) & !k.types[EffectiveGroup(k, s.group)].mask == 0
  {}

  lemma LockedAndPlain(km: Keymap, key: KeyCode, locked: KeyboardState, plain: KeyboardState, x: KeySym)
    requires ValidKeymap(km) && InRange(km, key) && |km.keys[key].types| > 0
    requires Symbol(km, key, locked) == Symbol(km, key, plain)
    requires locked.mods & !Consumed(km.keys[key], locked) & LockMask != 0
    requires plain.mods & !Consumed(km.keys[key], plain) & LockMask == 0
    ensures Produces(km, key, locked, x) <==> exists ks :: Produces(km, key, plain, ks) && x == km.upper(ks)
  {
    var ks := Symbol(km, key, plain);
    assert Produces(km, key, plain, ks) <==> ks != NoSymbol;
  }

  lemma LockBits(mods: Mods, mask: Mods, c: Mods, d: Mods)
    requires !Has(mask, LockMask) && c & !mask == 0 && d & !mask == 0
    ensures (mods | LockMask) & mask == mods & mask && (mods & !LockMask) & mask == mods & mask
    ensures (mods | LockMask) & !c & LockMask != 0 && (mods & !LockMask) & !d & LockMask == 0
  {}

  /** Lock that the type looks at and does not preserve leaves the symbol as the level gives it. */
  lemma LockConsumed(km: Keymap, key: KeyCode, s: KeyboardState, x: KeySym)
    requires ValidKeymap(km) && InRange(km, key) && |km.keys[key].types| > 0
    requires var t := km.keys[key].types[EffectiveGroup(km.keys[key], s.group)];
      Has(t.mask, LockMask) && t.preserve.None?
    ensures Produces(km, key, s, x) <==> x == Symbol(km, key, s) != NoSymbol
  {
    var k := km.keys[key];
    LockLookedAt(s.mods, Consumed(k, s));
  }

  lemma LockLookedAt(mods: Mods, consumed: Mods)
    requires Has(consumed, LockMask)
    ensures mods & !consumed & LockMask == 0
  {}

  /** An entry that preserves Lock leaves it to capitalise. */
  lemma LockPreserved(km: Keymap, key: KeyCode, s: KeyboardState, i: nat)
    requires ValidKeymap(km) && InRange(km, key) && |km.keys[key].types| > 0 && Has(s.mods, LockMask)
    requires var t := km.keys[key].types[EffectiveGroup(km.keys[key], s.group)];
      && i == FirstMatch(t, s.mods, 0) < |t.entries| && t.preserve.Some? && Has(t.preserve.value[i], LockMask)
    ensures Symbol(km, key, s) != NoSymbol ==> Produces(km, key, s, km.upper(Symbol(km, key, s)))
  {
    var t := km.keys[key].types[EffectiveGroup(km.keys[key], s.group)];
    PreservedBit(s.mods, t.mask, t.preserve.value[i]);
  }

  lemma PreservedBit(mods: Mods, mask: Mods, preserved: Mods)
    requires Has(mods, LockMask) && Has(preserved, LockMask)
    ensures mods & !(mask & !preserved) & LockMask != 0
  {}

  // ----- actions -----

  /** A key's action stands where its symbol stands. */
  lemma ActionBesideSymbol(km: Keymap, key: KeyCode, s: KeyboardState) returns (col: nat)
    requires ValidKeymap(km) && InRange(km, key) && |km.keys[key].types| > 0
    ensures var k := km.keys[key];
      && col < |k.types| * k.width && Symbol(km, key, s) == k.syms[col]
      && ActionOf(km, key, s) == if k.actions.None? then None else Some(k.actions.value[col])
  {
    col := Column(km.keys[key], s);
  }

  function Plain(a: KeyAction, modmap: Mods): KeyAction {
    match a
    case SetMods(true, _) => SetMods(false, modmap)
    case LockMods(true, _) => LockMods(false, modmap)
    case _ => a
  }

  /** The key with its modifier map written into its actions. */
  function Explicit(k: Key): Key {
    if k.actions.None? then k
    else
      var acts := k.actions.value;
      k.(actions := Some(seq(|acts|, i requires 0 <= i < |acts| => Plain(acts[i], k.modmap))))
  }

  /** An action that uses the modifier map is as good as one that names the same modifiers. */
  lemma ModMapIsMask(km: Keymap, key: KeyCode, s: KeyboardState)
    requires ValidKeymap(km) && InRange(km, key)
    ensures var km' := km.(keys := km.keys[key := Explicit(km.keys[key])]);
      ValidKeymap(km') && ModsOf(km', key, s) == ModsOf(km, key, s)
  {
    var k := km.keys[key];
    var e := Explicit(k);
    assert ValidKey(e);
    if |k.types| > 0 {
      assert Column(e, s) == Column(k, s);
    }
  }

  // ----- NumLock -----

  /** If a key is not affected by NumLock, then NumLock makes no difference to its symbol: states that differ in nothing
      but the modifiers of the NumLock key's action give the same one. */
  lemma UnaffectedByNumLock(km: Keymap, key: KeyCode, s: KeyboardState, numLock: KeyCode, mask: Mods, mods: Mods)
    requires ValidKeymap(km) && InRange(km, key) && |km.keys[key].types| > 0
    requires numLock != 0 && IsBest(km, XK_Num_Lock, s.(mods := 0), numLock)
    requires ActionOf(km, numLock, s.(mods := 0)) == Some(LockMods(false, mask))
    requires !Injector.Affected(km, key, s) && mods & !mask == s.mods & !mask
    ensures Symbol(km, key, s.(mods := mods)) == Symbol(km, key, s)
  {
    BestIsUnique(km, XK_Num_Lock, s.(mods := 0), numLock, Best(km, XK_Num_Lock, s.(mods := 0)));
    var k := km.keys[key];
    var looked := k.types[EffectiveGroup(k, s.group)].mask;
    NotLookedAt(mods, s.mods, looked, mask);
    SymbolIgnores(km, key, s, mods);
  }

  lemma NotLookedAt(a: Mods, b: Mods, looked: Mods, mask: Mods)
    requires !Has(looked, mask) && a & !mask == b & !mask
    ensures a & looked == b & looked
  {
    assert looked & !mask == looked;
    assert a & looked == (a & !mask) & looked && b & looked == (b & !mask) & looked;
  }

  /** Without a NumLock key, or with one that locks nothing, no key is affected; a key whose type looks at a modifier
      the NumLock key names is. */
  lemma AffectedByNumLock(km: Keymap, key: KeyCode, s: KeyboardState, numLock: KeyCode)
    requires ValidKeymap(km) && InRange(km, key) && IsBest(km, XK_Num_Lock, s.(mods := 0), numLock)
    ensures numLock == 0 ==> !Injector.Affected(km, key, s)
    ensures numLock != 0 && |km.keys[key].types| > 0 ==>
      forall mask, b | ActionOf(km, numLock, s.(mods := 0)) == Some(LockMods(false, mask)) && OneBit(b) ::
        Has(mask, b) && Has(km.keys[key].types[EffectiveGroup(km.keys[key], s.group)].mask, b) ==>
          Injector.Affected(km, key, s)
  {
    BestIsUnique(km, XK_Num_Lock, s.(mods := 0), numLock, Best(km, XK_Num_Lock, s.(mods := 0)));
    forall a: Mods, c: Mods, b | Has(a, b) && Has(c, b) && OneBit(b) ensures Has(a, c) {
      CommonBit(a, c, b);
    }
  }

  lemma CommonBit(a: Mods, c: Mods, b: Mods)
    requires Has(a, b) && Has(c, b) && OneBit(b)
    ensures Has(a, c)
  {}
}
