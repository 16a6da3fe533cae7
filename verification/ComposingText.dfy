/**
 Text composed by an input method (LorieView.java, replaceText and its callers). X has no composing text: what the user
 composes is typed at once, and erased with BackSpace when it changes. Java texts are UTF-16; the activity types one key
 per code point (activity.c, sendTextEvent).
 */
module ComposingText {
  import opened Options

  type Unit = u: nat | 0 < u < 0x1_0000 witness 1
  type Text = seq<Unit>

  predicate High(u: Unit) { 0xd800 <= u < 0xdc00 }
  predicate Low(u: Unit) { 0xdc00 <= u < 0xe000 }
  predicate StartsWithPair(t: Text) { |t| >= 2 && High(t[0]) && Low(t[1]) }

  /** The code point of a surrogate pair. */
  function CodePoint(high: Unit, low: Unit): nat requires High(high) && Low(low) {
    var h: int, l: int := high, low;
    0x1_0000 + (h - 0xd800) * 0x400 + (l - 0xdc00)
  }

  /** getBytes(UTF_8) of a unit on its own: a lone surrogate becomes a question mark. */
  function Single(u: Unit): nat { if High(u) || Low(u) then '?' as nat else u }

  /** The characters typed for a text that is sent as a whole. */
  function Typed(t: Text): seq<nat> {
    if t == [] then []
    else if StartsWithPair(t) then [CodePoint(t[0], t[1])] + Typed(t[2..])
    else [Single(t[0])] + Typed(t[1..])
  }

  /** The characters typed for a text that is sent one unit at a time. */
  function Singles(t: Text): (s: seq<nat>) ensures |s| == |t| {
    if t == [] then [] else [Single(t[0])] + Singles(t[1..])
  }

  /** A Unicode scalar value other than NUL. */
  type Scalar = c: nat | 0 < c < 0x11_0000 && !(0xd800 <= c < 0xe000) witness 1

  /** UTF-16. */
  function Utf16(cs: seq<Scalar>): Text {
    if cs == [] then [] else Units(cs[0]) + Utf16(cs[1..])
  }

  function Units(c: Scalar): (t: Text)
    ensures 1 <= |t| <= 2
  {
    if c < 0x1_0000 then [c] else [0xd800 + (c - 0x1_0000) / 0x400, 0xdc00 + (c - 0x1_0000) % 0x400]
  }

  lemma TypedUnits(c: Scalar, rest: Text)
    ensures Typed(Units(c) + rest) == [c] + Typed(rest)
    ensures Pairs(Units(c) + rest) == Pairs(rest) + if c < 0x1_0000 then 0 else 1
  {
    var t := Units(c) + rest;
    if c < 0x1_0000 {
      assert t[0] == c && t[1..] == rest;
    } else {
      assert t[0] == Units(c)[0] && t[1] == Units(c)[1] && t[2..] == rest;
    }
  }

  /** The number of characters beyond the basic plane. */
  function Beyond(cs: seq<Scalar>): nat {
    if cs == [] then 0 else (if cs[0] < 0x1_0000 then 0 else 1) + Beyond(cs[1..])
  }

  /** A well-formed text is typed as exactly its characters, and has a pair for each one beyond the basic plane. */
  lemma {:induction false} TypedIsText(cs: seq<Scalar>)
    ensures Typed(Utf16(cs)) == cs && Pairs(Utf16(cs)) == Beyond(cs)
  {
    if cs != [] {
      TypedIsText(cs[1..]);
      TypedUnits(cs[0], Utf16(cs[1..]));
    }
  }

  /** The number of surrogate pairs, that is of code points beyond the basic plane. */
  function Pairs(t: Text): nat {
    if t == [] then 0 else if StartsWithPair(t) then 1 + Pairs(t[2..]) else Pairs(t[1..])
  }

  // ----- keys sent, and what they do to the text before the cursor -----

  datatype Key = BackSpace | Type(code: nat)

  function Press(screen: seq<nat>, k: Key): seq<nat> {
    match k
    case BackSpace => if screen == [] then [] else screen[..|screen| - 1]
    case Type(c) => screen + [c]
  }

  function Replay(screen: seq<nat>, keys: seq<Key>): seq<nat> decreases |keys| {
    if keys == [] then screen else Replay(Press(screen, keys[0]), keys[1..])
  }

  function BackSpaces(n: int): (ks: seq<Key>) ensures |ks| == if n <= 0 then 0 else n decreases n {
    if n <= 0 then [] else BackSpaces(n - 1) + [BackSpace]
  }

  function Keys(cs: seq<nat>): (ks: seq<Key>) ensures |ks| == |cs| {
    if cs == [] then [] else [Type(cs[0])] + Keys(cs[1..])
  }

  predicate IsPrefix(a: Text, b: Text) { |a| <= |b| && a == b[..|a|] }

  predicate TakesShortcut(composing: Text, text: Text) {
    composing != [] && text != [] && (IsPrefix(text, composing) || IsPrefix(composing, text))
  }

  /** The keys replaceText sends. */
  function Sent(composing: Text, text: Text): seq<Key> {
    if TakesShortcut(composing, text) then
      BackSpaces(|composing| - |text|) + (if |text| > |composing| then Keys(Singles(text[|composing|..])) else [])
    else BackSpaces(|composing|) + Keys(Typed(text))
  }

  function OrEmpty(t: Option<Text>): Text { if t.Some? then t.value else [] }

  lemma Assoc(a: seq<Key>, b: seq<Key>, c: seq<Key>)
    ensures (a + b) + c == a + (b + c)
  {}

  class InputConnection {
    var composing: Option<Text>
    var keys: seq<Key>

    constructor () ensures composing == None && keys == [] { composing, keys := None, []; }

    /** sendTextEvent with the bytes of a text. */
    method SendText(t: Text)
      modifies this`keys
      ensures keys == old(keys) + Keys(Typed(t))
    {
      var rest := t;
      while rest != []
        invariant keys + Keys(Typed(rest)) == old(keys) + Keys(Typed(t))
        decreases |rest|
      {
        ghost var before := rest;
        if StartsWithPair(rest) {
          keys := keys + [Type(CodePoint(rest[0], rest[1]))];
          rest := rest[2..];
        } else {
          keys := keys + [Type(Single(rest[0]))];
          rest := rest[1..];
        }
        assert Keys(Typed(before)) == [keys[|keys| - 1]] + Keys(Typed(rest));
      }
    }

    method EraseUnits(n: int)
      modifies this`keys
      ensures keys == old(keys) + BackSpaces(n)
    {
      var i := 0;
      while i < n
        invariant 0 <= i && (i <= n || i == 0)
        invariant keys == old(keys) + BackSpaces(i)
      {
        keys := keys + [BackSpace];
        i := i + 1;
      }
    }

    method SendUnits(t: Text, from: nat)
      requires from <= |t|
      modifies this`keys
      ensures keys == old(keys) + Keys(Singles(t[from..]))
    {
      var i := from;
      while i < |t|
        invariant from <= i <= |t|
        invariant keys + Keys(Singles(t[i..])) == old(keys) + Keys(Singles(t[from..]))
      {
        assert t[i..][1..] == t[i + 1..];
        keys := keys + [Type(Single(t[i]))];
        i := i + 1;
      }
    }

    /** replaceText */
    method ReplaceText(text: Option<Text>, reuse: bool)
      modifies this
      ensures keys == old(keys) + Sent(OrEmpty(old(composing)), OrEmpty(text))
      ensures composing == if reuse then text else None
    {
      SendReplacement(OrEmpty(composing), OrEmpty(text));
      composing := if reuse then text else None;
    }

    /** The keys of replaceText. */
    method SendReplacement(oldText: Text, newText: Text)
      modifies this`keys
      ensures keys == old(keys) + Sent(oldText, newText)
    {
      if |oldText| > 0 && |newText| > 0 && (IsPrefix(newText, oldText) || IsPrefix(oldText, newText)) {
        SendDifference(oldText, newText);
      } else {
        EraseUnits(|oldText|);
        SendText(newText);
        Assoc(old(keys), BackSpaces(|oldText|), Keys(Typed(newText)));
      }
    }

    /** The shortcut when one text starts with the other. */
    method SendDifference(oldText: Text, newText: Text)
      requires TakesShortcut(oldText, newText)
      modifies this`keys
      ensures keys == old(keys) + Sent(oldText, newText)
    {
      EraseUnits(|oldText| - |newText|);
      if |newText| > |oldText| {
        SendUnits(newText, |oldText|);
        Assoc(old(keys), BackSpaces(|oldText| - |newText|), Keys(Singles(newText[|oldText|..])));
      } else {
        assert BackSpaces(|oldText| - |newText|) + [] == BackSpaces(|oldText| - |newText|);
      }
    }

    method SetComposingText(text: Option<Text>)
      modifies this
      ensures keys == old(keys) + Sent(OrEmpty(old(composing)), OrEmpty(text)) && composing == text
    {
      ReplaceText(text, true);
    }

    method CommitText(text: Text)
      modifies this
      ensures keys == old(keys) + Sent(OrEmpty(old(composing)), text) && composing == None
    {
      ReplaceText(Some(text), false);
    }

    method FinishComposingText()
      modifies this`composing
      ensures composing == None
    {
      composing := None;
    }
  }

  // ----- one replacement -----

  function Erased(screen: seq<nat>, n: nat): seq<nat> { if n <= |screen| then screen[..|screen| - n] else [] }

  lemma {:induction false} ReplayConcat(screen: seq<nat>, a: seq<Key>, b: seq<Key>)
    ensures Replay(screen, a + b) == Replay(Replay(screen, a), b)
    decreases |a|
  {
    if a == [] {
      assert a + b == b;
    } else {
      assert (a + b)[1..] == a[1..] + b;
      ReplayConcat(Press(screen, a[0]), a[1..], b);
    }
  }

  lemma {:induction false} ReplayBackSpaces(screen: seq<nat>, n: nat)
    ensures Replay(screen, BackSpaces(n)) == Erased(screen, n)
  {
    if n > 0 {
      ReplayConcat(screen, BackSpaces(n - 1), [BackSpace]);
      ReplayBackSpaces(screen, n - 1);
      assert [BackSpace][1..] == [];
      assert Replay(Erased(screen, n - 1), [BackSpace]) == Press(Erased(screen, n - 1), BackSpace);
    }
  }

  lemma {:induction false} ReplayKeys(screen: seq<nat>, cs: seq<nat>)
    ensures Replay(screen, Keys(cs)) == screen + cs
    decreases |cs|
  {
    if cs != [] {
      ReplayKeys(screen + [cs[0]], cs[1..]);
      assert (screen + [cs[0]]) + cs[1..] == screen + cs;
    }
  }

  lemma {:induction false} TypedLength(t: Text)
    ensures |Typed(t)| == |t| - Pairs(t) && (t != [] ==> Typed(t) != [])
    ensures Pairs(t) == 0 ==> Typed(t) == Singles(t)
    decreases |t|
  {
    if t != [] {
      TypedLength(if StartsWithPair(t) then t[2..] else t[1..]);
    }
  }

  /** Appending text keeps the pairs that are there; when it makes no new pair, sending the appended part on its own
      types the same characters. */
  lemma {:induction false} TypedSplit(a: Text, b: Text)
    ensures Pairs(a + b) >= Pairs(a)
    ensures Pairs(a + b) == Pairs(a) ==> Typed(a + b) == Typed(a) + Singles(b)
    decreases |a|
  {
    if a == [] {
      assert a + b == b;
      TypedLength(b);
    } else if StartsWithPair(a) {
      assert (a + b)[2..] == a[2..] + b;
      TypedSplit(a[2..], b);
    } else if !StartsWithPair(a + b) {
      assert (a + b)[1..] == a[1..] + b;
      TypedSplit(a[1..], b);
    } else {
      assert |a| == 1;
    }
  }

  lemma RetypeReplayed(committed: seq<nat>, composing: Text, text: Text)
    ensures Replay(committed + Typed(composing), BackSpaces(|composing|) + Keys(Typed(text)))
         == Erased(committed, Pairs(composing)) + Typed(text)
  {
    var screen := committed + Typed(composing);
    TypedLength(composing);
    ReplayConcat(screen, BackSpaces(|composing|), Keys(Typed(text)));
    ReplayBackSpaces(screen, |composing|);
    assert Erased(screen, |composing|) == Erased(committed, Pairs(composing));
    ReplayKeys(Erased(committed, Pairs(composing)), Typed(text));
  }

  lemma ShrinkReplayed(committed: seq<nat>, composing: Text, text: Text)
    requires text != [] && IsPrefix(text, composing)
    ensures Replay(committed + Typed(composing), BackSpaces(|composing| - |text|)) == committed + Typed(text)
       <==> Pairs(composing) == Pairs(text)
  {
    var screen, n := committed + Typed(composing), |composing| - |text|;
    assert composing == text + composing[|text|..];
    TypedSplit(text, composing[|text|..]);
    TypedLength(composing);
    TypedLength(text);
    ReplayBackSpaces(screen, n);
    if Pairs(composing) == Pairs(text) {
      assert Erased(screen, n) == committed + Typed(text);
    }
  }

  lemma AppendedIff(committed: seq<nat>, typed: seq<nat>, more: seq<nat>, wanted: seq<nat>, same: bool)
    requires if same then wanted == typed + more else |wanted| != |typed| + |more|
    ensures (committed + typed) + more == committed + wanted <==> same
  {
    assert same ==> (committed + typed) + more == committed + wanted;
  }

  lemma GrowReplayed(committed: seq<nat>, composing: Text, text: Text)
    requires IsPrefix(composing, text)
    ensures Replay(committed + Typed(composing), Keys(Singles(text[|composing|..]))) == committed + Typed(text)
       <==> Pairs(composing) == Pairs(text)
  {
    var screen, rest := committed + Typed(composing), text[|composing|..];
    assert text == composing + rest;
    TypedSplit(composing, rest);
    TypedLength(composing);
    TypedLength(text);
    ReplayKeys(screen, Singles(rest));
    AppendedIff(committed, Typed(composing), Singles(rest), Typed(text), Pairs(composing) == Pairs(text));
  }

  /** When a replacement leaves the committed text followed by the new text: for the shortcut, when old and new text
      have equally many surrogate pairs; otherwise, when the old text has none or there is no committed text before it
      for the surplus BackSpaces to eat. */
  predicate Replaceable(committed: seq<nat>, composing: Text, text: Text) {
    if TakesShortcut(composing, text) then Pairs(composing) == Pairs(text)
    else Pairs(composing) == 0 || committed == []
  }

  lemma ReplacedIff(committed: seq<nat>, composing: Text, text: Text)
    ensures Replay(committed + Typed(composing), Sent(composing, text)) == committed + Typed(text)
       <==> Replaceable(committed, composing, text)
  {
    if !TakesShortcut(composing, text) {
      RetypeReplayed(committed, composing, text);
      var left := Erased(committed, Pairs(composing));
      if Pairs(composing) != 0 && committed != [] {
        assert |left + Typed(text)| != |committed + Typed(text)|;
      } else {
        assert left == committed;
      }
    } else if |text| > |composing| {
      var more := Keys(Singles(text[|composing|..]));
      assert BackSpaces(|composing| - |text|) + more == more;
      GrowReplayed(committed, composing, text);
    } else {
      assert BackSpaces(|composing| - |text|) + [] == BackSpaces(|composing| - |text|);
      assert IsPrefix(text, composing);
      ShrinkReplayed(committed, composing, text);
    }
  }

  /** On text within the basic plane the shortcut does exactly what erasing everything and typing anew does. */
  lemma ShortcutIsRetyping(committed: seq<nat>, composing: Text, text: Text)
    requires Pairs(composing) == 0 && Pairs(text) == 0
    ensures Replay(committed + Typed(composing), Sent(composing, text))
         == Replay(committed + Typed(composing), BackSpaces(|composing|) + Keys(Typed(text)))
  {
    ReplacedIff(committed, composing, text);
    RetypeReplayed(committed, composing, text);
    assert Erased(committed, 0) == committed;
  }

  /** An emoji, replaced by a letter, takes the character before it along. */
  lemma PairEatsCommittedText()
    ensures Replay(['a' as nat] + Typed([0xd83d, 0xde00]), Sent([0xd83d, 0xde00], ['b' as nat]))
         != ['a' as nat, 'b' as nat]
  {
    var emoji: Text, b: Text := [0xd83d, 0xde00], ['b' as nat];
    assert Pairs(emoji) == 1 by { assert emoji[2..] == []; }
    assert Typed(b) == ['b' as nat] by { assert b[1..] == []; }
    ReplacedIff(['a' as nat], emoji, b);
    assert ['a' as nat] + Typed(b) == ['a' as nat, 'b' as nat];
  }

  // ----- all runs -----

  datatype Op = SetComposing(text: Option<Text>) | Commit(committed: Text) | Finish

  /** What the input method means: text committed so far and text still being composed. */
  datatype Meaning = Meaning(committed: seq<nat>, composing: Option<Text>)

  function After(m: Meaning, op: Op): Meaning {
    match op
    case SetComposing(t) => m.(composing := t)
    case Commit(t) => Meaning(m.committed + Typed(t), None)
    case Finish => Meaning(m.committed + Typed(OrEmpty(m.composing)), None)
  }

  /** The keys one call sends (the contracts of InputConnection). */
  function Emitted(composing: Option<Text>, op: Op): seq<Key> {
    match op
    case SetComposing(t) => Sent(OrEmpty(composing), OrEmpty(t))
    case Commit(t) => Sent(OrEmpty(composing), t)
    case Finish => []
  }

  function Meant(before: seq<nat>, ops: seq<Op>): Meaning {
    if ops == [] then Meaning(before, None) else After(Meant(before, ops[..|ops| - 1]), ops[|ops| - 1])
  }

  function AllKeys(before: seq<nat>, ops: seq<Op>): seq<Key> {
    if ops == [] then []
    else
      var front := ops[..|ops| - 1];
      AllKeys(before, front) + Emitted(Meant(before, front).composing, ops[|ops| - 1])
  }

  function TextOf(op: Op): Text {
    match op
    case SetComposing(t) => OrEmpty(t)
    case Commit(t) => t
    case Finish => []
  }

  predicate BasicPlane(ops: seq<Op>) { forall i :: 0 <= i < |ops| ==> Pairs(TextOf(ops[i])) == 0 }

  predicate Shows(screen: seq<nat>, m: Meaning) { screen == m.committed + Typed(OrEmpty(m.composing)) }

  /** A call made while the screen is right leaves it right exactly when its replacement is Replaceable; finishing is
      always right. */
  lemma StepShows(screen: seq<nat>, m: Meaning, op: Op)
    requires Shows(screen, m)
    ensures Shows(Replay(screen, Emitted(m.composing, op)), After(m, op))
       <==> op.Finish? || Replaceable(m.committed, OrEmpty(m.composing), TextOf(op))
  {
    ReplacedIff(m.committed, OrEmpty(m.composing), TextOf(op));
    match op
    case SetComposing(t) =>
    case Commit(t) => assert Typed([]) == []; assert (m.committed + Typed(t)) + [] == m.committed + Typed(t);
    case Finish => assert (m.committed + Typed(OrEmpty(m.composing))) + [] == m.committed + Typed(OrEmpty(m.composing));
  }

  /** On every run over basic-plane texts, whatever was on the screen before, the keys sent so far leave the committed
      text followed by the text being composed. */
  lemma {:induction false} ScreenShowsMeaning(before: seq<nat>, ops: seq<Op>)
    requires BasicPlane(ops)
    ensures Shows(Replay(before, AllKeys(before, ops)), Meant(before, ops))
    ensures Pairs(OrEmpty(Meant(before, ops).composing)) == 0
  {
    if ops != [] {
      var front, op := ops[..|ops| - 1], ops[|ops| - 1];
      ScreenShowsMeaning(before, front);
      var m := Meant(before, front);
      ReplayConcat(before, AllKeys(before, front), Emitted(m.composing, op));
      assert Pairs(TextOf(op)) == 0;
      StepShows(Replay(before, AllKeys(before, front)), m, op);
    }
  }
}
