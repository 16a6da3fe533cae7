/**
 A press that is given up after a fake Shift was queued: a keyboard with a Shift key, a level-three key and a letter
 key whose capital needs Shift without level three, while level three is latched, so that no held key can be released
 for it.
 */
module StuckPress {
  import opened Options
  import opened Keymap
  import opened SpareKeys
  import opened KeyInjection

  const ShiftKey: KeyCode := 8
  const LevelThreeKey: KeyCode := 9
  const LetterKey: KeyCode := 10
  const LevelThreeMod: Mods := 0x80

  const XK_Shift_L: KeySym := 0xffe1
  const XK_a: KeySym := 0x61
  const XK_A: KeySym := 0x41

  const OneLevel := KeyType(0, [], None)
  const ShiftOnly := KeyType(ShiftMask | LevelThreeMod, [MapEntry(true, ShiftMask, 1)], None)

  function KeyOf(i: nat): Key {
    if i == ShiftKey then Key([OneLevel], Wrap, 1, [XK_Shift_L], Some([SetMods(false, ShiftMask)]), 0, false)
    else if i == LevelThreeKey then
      Key([OneLevel], Wrap, 1, [XK_ISO_Level3_Shift], Some([SetMods(false, LevelThreeMod)]), 0, false)
    else if i == LetterKey then Key([ShiftOnly], Wrap, 2, [XK_a, XK_A], None, 0, false)
    else Key([], Wrap, 1, [], None, 0, false)
  }

  const Board := Keymap(ShiftKey, LetterKey, seq(256, i requires 0 <= i < 256 => KeyOf(i)), x => x, x => x)

  /** Level three is latched. */
  const Latched := KeyboardState(LevelThreeMod, 0)

  lemma BoardIsValid()
    ensures ValidKeymap(Board)
  {
    forall k | 0 <= k < 256 ensures ValidKey(Board.keys[k]) {
      assert Board.keys[k] == KeyOf(k);
    }
  }

  /** What the three keys produce. */
  lemma BoardProduces(key: KeyCode, mods: Mods, x: KeySym)
    requires InRange(Board, key) && ValidKeymap(Board)
    ensures Produces(Board, key, KeyboardState(mods, 0), x)
       <==> x == if key == ShiftKey then XK_Shift_L else if key == LevelThreeKey then XK_ISO_Level3_Shift
                 else if mods & (ShiftMask | LevelThreeMod) == ShiftMask then XK_A else XK_a
  {
    var s, k := KeyboardState(mods, 0), Board.keys[key];
    assert k == KeyOf(key);
    assert EffectiveGroup(k, 0) == 0;
    if key == LetterKey {
      LetterLevel(mods);
      assert Column(k, s) == Level(ShiftOnly, mods);
    } else {
      assert Column(k, s) == 0;
    }
  }

  lemma LetterLevel(mods: Mods)
    ensures Level(ShiftOnly, mods) == if mods & (ShiftMask | LevelThreeMod) == ShiftMask then 1 else 0
  {
    assert Matches(ShiftOnly, mods, 0) <==> mods & (ShiftMask | LevelThreeMod) == ShiftMask;
  }

  lemma BoardMods(key: KeyCode, mods: Mods)
    requires InRange(Board, key) && ValidKeymap(Board)
    ensures ModsOf(Board, key, KeyboardState(mods, 0))
         == if key == ShiftKey then ShiftMask else if key == LevelThreeKey then LevelThreeMod else 0
  {
    var s, k := KeyboardState(mods, 0), Board.keys[key];
    assert k == KeyOf(key);
    if key != LetterKey {
      assert Column(k, s) == 0;
    }
  }

  lemma BestLevelThree(mods: Mods)
    requires ValidKeymap(Board)
    ensures Best(Board, XK_ISO_Level3_Shift, KeyboardState(mods, 0)) == LevelThreeKey
  {
    var s := KeyboardState(mods, 0);
    forall key | InRange(Board, key) ensures Produces(Board, key, s, XK_ISO_Level3_Shift) <==> key == LevelThreeKey {
      BoardProduces(key, mods, XK_ISO_Level3_Shift);
    }
    BestIsUnique(Board, XK_ISO_Level3_Shift, s, Best(Board, XK_ISO_Level3_Shift, s), LevelThreeKey);
  }

  lemma BoardLevelThree(mods: Mods)
    requires ValidKeymap(Board)
    ensures LevelThree(Board, KeyboardState(mods, 0)) == LevelThreeMod
  {
    BestLevelThree(0);
    BoardMods(LevelThreeKey, 0);
    assert KeyboardState(mods, 0).(mods := 0) == KeyboardState(0, 0);
  }

  /** Without a latched modifier the same keyboard has plain modifiers, as TargetInEffect wants them. */
  lemma BoardIsPlain()
    ensures ValidKeymap(Board) && PlainModifiers(Board, 0, KeyboardState(0, 0))
    ensures InEffect(Board, 0, {}, KeyboardState(0, 0), 0)
  {
    BoardIsValid();
    BoardLevelThree(0);
    BestLevelThree(0);
    forall k | InRange(Board, k)
      ensures ModsOf(Board, k, KeyboardState(0, 0))
           == if k == ShiftKey then ShiftMask else if k == LevelThreeKey then LevelThreeMod else 0
    {
      BoardMods(k, 0);
    }
  }

  /** The capital is found only by toggling both modifiers. */
  lemma OnlyBothToggled(key: KeyCode, t: KeyboardState)
    requires ValidKeymap(Board) && InRange(Board, key)
    requires Produces(Board, key, t, XK_A) && t in Candidates(Board, Latched)
    ensures t == KeyboardState(ShiftMask, 0)
  {
    BoardLevelThree(LevelThreeMod);
    BoardProduces(key, t.mods, XK_A);
    assert Candidates(Board, Latched)
        == [Latched, KeyboardState(0x81, 0), KeyboardState(0, 0), KeyboardState(ShiftMask, 0)];
  }

  lemma CapitalHasKey()
    requires ValidKeymap(Board)
    ensures !NoAnswer(Board, XK_A, Latched)
  {
    BoardLevelThree(LevelThreeMod);
    var cs := Candidates(Board, Latched);
    assert cs[3] == KeyboardState(ShiftMask, 0);
    BoardProduces(LetterKey, ShiftMask, XK_A);
    assert InRange(Board, LetterKey) && Produces(Board, LetterKey, cs[3], XK_A);
    assert Answers(Board, XK_A, cs)[3] == Best(Board, XK_A, cs[3]) != 0;
  }

  /** With nothing held, Shift can be pressed and level three cannot be released. */
  lemma ReleaseImpossible(t: KeyboardState)
    requires ValidKeymap(Board) && t == KeyboardState(ShiftMask, 0)
    ensures !ShiftStuck(Board, {}, Latched, t)
    ensures forall f :: !LevelThreeFake(Board, {}, Latched, t, f)
  {
    BoardLevelThree(LevelThreeMod);
    BoardMods(ShiftKey, LevelThreeMod);
    assert InRange(Board, ShiftKey) && Has(ModsOf(Board, ShiftKey, Latched), ShiftMask);
    assert ChangedMask(Board, Latched, t) == LevelThreeMod;
    forall f ensures !LevelThreeFake(Board, {}, Latched, t, f) {
      if f.FakeRelease? && f.keys != [] {
        assert f.keys[0] in f.keys;
      }
    }
  }

  /** So the press of the capital is given up with a fake press of Shift in the queue. */
  lemma GivenUp(injector: Injector, o: Outcome)
    requires ValidKeymap(Board) && injector.alternatives == []
    requires !o.NoKey? && injector.Accounted(Board, XK_A, Latched, {}, o)
    ensures o.Stuck? && o.shift == FakePress(ShiftPress(Board, Latched))
    ensures exists key :: Net(Trace(o), key) != 0
  {
    var used, t :| injector.Fits(Board, XK_A, Latched, o.key, t, used) && t == o.target;
    OnlyBothToggled(o.key, t);
    ReleaseImpossible(o.target);
    assert !Has(Latched.mods, ShiftMask) && Has(o.target.mods, ShiftMask);
    AbandonedBalance(Board, {}, Latched, o);
  }

  /** Press and release of the capital, with nothing held: afterwards the queue holds a press of Shift that nobody
      releases. */
  method ShiftStaysDown() returns (queue: seq<Event>, down: KeyCode)
    ensures Net(queue, down) == 1
  {
    BoardIsValid();
    CapitalHasKey();
    var injector := NewInjector();
    EmptyLookup(injector.pressed[..], XK_A);
    var o := injector.Press(XK_A, Latched, {});
    GivenUp(injector, o);
    injector.Release(XK_A);
    queue := injector.queued;
    down := o.shift.key;
    NetOfOne(KeyPress(down), down);
    assert queue == [KeyPress(down)];
  }

  method NewInjector() returns (injector: Injector)
    ensures fresh(injector) && fresh(injector.editor) && fresh(injector.pressed) && injector.Valid()
    ensures injector.editor.View() == Pool(Board, []) && injector.alternatives == []
    ensures Empty(injector.pressed[..]) && injector.queued == []
  {
    BoardIsValid();
    var editor := new KeymapEditor(Board);
    injector := new Injector(editor, []);
  }
}
