/**
 The text conversions of clipboard.c: carriage-return removal, Latin-1 to UTF-8, the UTF-8 check, and UTF-8 to
 Latin-1.  UTF-8 is that of sections 3 and 4 of RFC 3629.  The bit tests of the source are written as the ranges
 they select (MaskTests).
 */
module ClipboardCodec {
  type Byte = b: int | 0 <= b < 256

  const CR: Byte := 13
  const QuestionMark: Byte := 63
  const Replacement: nat := 0xfffd

  lemma MaskTests(b: bv8)
    ensures b & 0x80 == 0 <==> b < 0x80
    ensures b & 0xc0 == 0x80 <==> 0x80 <= b < 0xc0
    ensures b & 0xe0 == 0xc0 <==> 0xc0 <= b < 0xe0
    ensures b & 0xe0 == 0xe0 <==> 0xe0 <= b
    ensures b & 0xf0 == 0xe0 <==> 0xe0 <= b < 0xf0
    ensures b & 0xf0 == 0xf0 <==> 0xf0 <= b
    ensures b & 0xf8 == 0xf0 <==> 0xf0 <= b < 0xf8
    ensures b & 0x3f == b % 64 && b & 0x1f == b % 32 && b & 0x0f == b % 16 && b & 0x07 == b % 8
  {}

  // ----- UTF-8 -----

  /** A Unicode scalar value. */
  type CodePoint = cp: nat | cp < 0x110000 && !(0xd800 <= cp < 0xe000)

  function Tail(bits: nat): (b: Byte)
    ensures Continuation(b)
  {
    0x80 + bits % 64
  }

  function Lead(base: nat, bits: nat): (b: Byte)
    requires base + bits < 256
    ensures b == base + bits
  {
    base + bits
  }

  function Encode(cp: CodePoint): (e: seq<Byte>)
    ensures 1 <= |e| <= 4
  {
    if cp < 0x80 then [cp]
    else if cp < 0x800 then [Lead(0xc0, cp / 64), Tail(cp)]
    else if cp < 0x10000 then [Lead(0xe0, cp / 4096), Tail(cp / 64), Tail(cp)]
    else [Lead(0xf0, cp / 262144), Tail(cp / 4096), Tail(cp / 64), Tail(cp)]
  }

  function Flatten(parts: seq<seq<Byte>>): seq<Byte> {
    if parts == [] then [] else parts[0] + Flatten(parts[1..])
  }

  lemma {:induction false} FlattenConcat(a: seq<seq<Byte>>, b: seq<seq<Byte>>)
    ensures Flatten(a + b) == Flatten(a) + Flatten(b)
  {
    if a == [] {
      assert a + b == b;
    } else {
      assert (a + b)[1..] == a[1..] + b;
      FlattenConcat(a[1..], b);
    }
  }

  function Parts(cps: seq<CodePoint>): seq<seq<Byte>> {
    seq(|cps|, i requires 0 <= i < |cps| => Encode(cps[i]))
  }

  /** The encoding of a text. */
  function EncodeAll(cps: seq<CodePoint>): seq<Byte> { Flatten(Parts(cps)) }

  lemma EncodeConcat(a: seq<CodePoint>, b: seq<CodePoint>)
    ensures EncodeAll(a + b) == EncodeAll(a) + EncodeAll(b)
  {
    assert Parts(a + b) == Parts(a) + Parts(b);
    FlattenConcat(Parts(a), Parts(b));
  }

  lemma EncodeHead(cps: seq<CodePoint>)
    requires cps != []
    ensures EncodeAll(cps) == Encode(cps[0]) + EncodeAll(cps[1..])
  {
    assert Parts(cps)[1..] == Parts(cps[1..]);
  }

  lemma EncodeOne(cp: CodePoint)
    ensures EncodeAll([cp]) == Encode(cp)
  {
    var parts := Parts([cp]);
    assert parts[1..] == [] && parts[0] + Flatten(parts[1..]) == parts[0];
  }

  /** Where code point i of the text starts and ends in its encoding. */
  lemma EncodeAt(cps: seq<CodePoint>, i: nat)
    requires i < |cps|
    ensures EncodeAll(cps) == EncodeAll(cps[..i]) + (Encode(cps[i]) + EncodeAll(cps[i + 1..]))
    ensures EncodeAll(cps[..i + 1]) == EncodeAll(cps[..i]) + Encode(cps[i])
  {
    assert cps == cps[..i] + cps[i..] && cps[i..][1..] == cps[i + 1..] && cps[..i + 1] == cps[..i] + [cps[i]];
    EncodeConcat(cps[..i], cps[i..]);
    EncodeHead(cps[i..]);
    EncodeConcat(cps[..i], [cps[i]]);
    EncodeOne(cps[i]);
  }

  predicate NulFree(cps: seq<CodePoint>) { forall i :: 0 <= i < |cps| ==> cps[i] != 0 }

  predicate Continuation(b: Byte) { 0x80 <= b < 0xc0 }

  // ----- lorieConvertLF -----

  function WithoutCR(s: seq<Byte>): seq<Byte> {
    if s == [] then [] else (if s[0] == CR then [] else [s[0]]) + WithoutCR(s[1..])
  }

  lemma {:induction false} WithoutCRConcat(a: seq<Byte>, b: seq<Byte>)
    ensures WithoutCR(a + b) == WithoutCR(a) + WithoutCR(b)
  {
    if a == [] {
      assert a + b == b;
    } else {
      assert (a + b)[1..] == a[1..] + b;
      WithoutCRConcat(a[1..], b);
    }
  }

  lemma WithoutCRSnoc(s: seq<Byte>, b: Byte)
    ensures WithoutCR(s + [b]) == WithoutCR(s) + if b == CR then [] else [b]
  {
    WithoutCRConcat(s, [b]);
    assert [b][1..] == [];
  }

  method ConvertLF(src: seq<Byte>, dst: array<Byte>)
    requires dst.Length >= |src|
    modifies dst
    ensures |WithoutCR(src)| <= |src|
    ensures dst[..] == WithoutCR(src) + old(dst[..])[|WithoutCR(src)|..]
  {
    var j := 0;
    assert src[..0] == [];
    for i := 0 to |src|
      invariant 0 <= j <= i && j == |WithoutCR(src[..i])|
      invariant dst[..j] == WithoutCR(src[..i])
      invariant dst[j..] == old(dst[..])[j..]
    {
      WithoutCRSnoc(src[..i], src[i]);
      assert src[..i + 1] == src[..i] + [src[i]];
      if src[i] != CR {
        dst[j] := src[i];
        j := j + 1;
      }
    }
    assert src[..|src|] == src;
    assert dst[..] == dst[..j] + dst[j..];
  }

  function TextWithoutCR(cps: seq<CodePoint>): seq<CodePoint> {
    if cps == [] then [] else (if cps[0] == CR then [] else [cps[0]]) + TextWithoutCR(cps[1..])
  }

  /** Removing carriage returns from the bytes removes them from the text: the result is well-formed again. */
  lemma {:induction false} WithoutCRCommutes(cps: seq<CodePoint>)
    ensures WithoutCR(EncodeAll(cps)) == EncodeAll(TextWithoutCR(cps))
  {
    if cps != [] {
      var e := Encode(cps[0]);
      EncodeHead(cps);
      WithoutCRConcat(e, EncodeAll(cps[1..]));
      WithoutCRCommutes(cps[1..]);
      WithoutCROfOne(cps[0]);
      EncodeOne(cps[0]);
      EncodeConcat(if cps[0] == CR then [] else [cps[0]], TextWithoutCR(cps[1..]));
    }
  }

  lemma WithoutCROfOne(cp: CodePoint)
    ensures WithoutCR(Encode(cp)) == if cp == CR then [] else Encode(cp)
  {
    var e := Encode(cp);
    if cp >= 0x80 {
      NoCR(e);
    } else {
      assert e[1..] == [];
    }
  }

  lemma {:induction false} NoCR(s: seq<Byte>)
    requires CR !in s
    ensures WithoutCR(s) == s
  {
    if s != [] {
      NoCR(s[1..]);
    }
  }

  // ----- lorieLatin1ToUTF8 -----

  /** The bytes before the first NUL. */
  function UpToNul(s: seq<Byte>): (t: seq<Byte>)
    ensures |t| <= |s| && t == s[..|t|] && 0 !in t
    ensures |t| < |s| ==> s[|t|] == 0
  {
    if s == [] || s[0] == 0 then [] else [s[0]] + UpToNul(s[1..])
  }

  function Text(latin1: seq<Byte>): (cps: seq<CodePoint>)
    ensures |cps| == |latin1| && forall i :: 0 <= i < |cps| ==> cps[i] == latin1[i]
  {
    seq(|latin1|, i requires 0 <= i < |latin1| => latin1[i])
  }

  lemma {:induction false} Latin1Grows(latin1: seq<Byte>)
    ensures |EncodeAll(Text(latin1))| <= 2 * |latin1|
  {
    if latin1 != [] {
      EncodeHead(Text(latin1));
      Latin1Grows(latin1[1..]);
      assert Text(latin1)[1..] == Text(latin1[1..]);
    }
  }

  lemma Latin1Bytes(b: Byte)
    ensures Encode(b) == if b < 128 then [b] else [0xc2 + (if b > 0xbf then 1 else 0), b % 64 + 0x80]
  {}

  /** One turn of the loop. */
  method PutLatin1(out: array<Byte>, o: nat, b: Byte) returns (next: nat)
    requires o + 2 <= out.Length
    modifies out
    ensures next == o + |Encode(b)| <= out.Length
    ensures out[..next] == old(out[..o]) + Encode(b) && out[next..] == old(out[next..])
  {
    Latin1Bytes(b);
    if b < 128 {
      out[o] := b;
      next := o + 1;
    } else {
      out[o] := 0xc2 + (if b > 0xbf then 1 else 0);
      out[o + 1] := b % 64 + 0x80;
      next := o + 2;
    }
  }

  /** The input ends with a NUL; `out` is written up to the encoding of what precedes it and no further. */
  method Latin1ToUTF8(out: array<Byte>, latin1: seq<Byte>)
    requires 0 in latin1 && out.Length >= 2 * |UpToNul(latin1)|
    modifies out
    ensures |EncodeAll(Text(UpToNul(latin1)))| <= out.Length
    ensures out[..] == EncodeAll(Text(UpToNul(latin1))) + old(out[..])[|EncodeAll(Text(UpToNul(latin1)))|..]
  {
    ghost var text := UpToNul(latin1);
    ghost var cps := Text(text);
    assert 0 in latin1 && 0 !in text && |text| < |latin1|;
    Latin1Grows(text);
    var i, o := 0, 0;
    while latin1[i] != 0
      invariant 0 <= i <= |text| && 0 <= o <= 2 * i && o == |EncodeAll(cps[..i])|
      invariant out[..o] == EncodeAll(cps[..i])
      invariant out[o..] == old(out[..])[o..]
      decreases |text| - i
    {
      assert i < |text| && latin1[i] == text[i];
      EncodeAt(cps, i);
      o := PutLatin1(out, o, latin1[i]);
      i := i + 1;
    }
    assert cps[..i] == cps;
    assert out[..] == out[..o] + out[o..];
  }

  // ----- lorieCheckUTF8 -----

  /** How many bytes the checker expects in a group that starts with this byte; 0 if it refuses it. */
  function GroupLength(lead: Byte): nat {
    if lead < 0x80 then 1 else if lead < 0xe0 then 2 else if lead < 0xf0 then 3 else if lead < 0xf8 then 4 else 0
  }

  predicate IsGroup(g: seq<Byte>) {
    g != [] && |g| == GroupLength(g[0]) && forall i :: 1 <= i < |g| ==> Continuation(g[i])
  }

  /** A sequence of complete groups. */
  predicate Groups(s: seq<Byte>)
    decreases |s|
  {
    s == [] || var n := GroupLength(s[0]); 0 < n <= |s| && IsGroup(s[..n]) && Groups(s[n..])
  }

  /** utf[size] is a NUL after the text; no index beyond it is read. */
  method CheckUTF8(utf: seq<Byte>, size: nat) returns (ok: bool)
    requires |utf| == size + 1 && utf[size] == 0
    ensures ok <==> Groups(UpToNul(utf))
  {
    ghost var text := UpToNul(utf);
    var ix := 0;
    while utf[ix] != 0 && ix < size
      invariant 0 <= ix <= |text|
      invariant Groups(text) <==> Groups(text[ix..])
      decreases |text| - ix
    {
      var n := CheckGroup(utf, ix);
      if n == 0 {
        return false;
      }
      ix := ix + n;
    }
    assert ix == |text| && text[ix..] == [];
    ok := true;
  }

  /** One turn of its loop: the length of the group at ix, 0 if there is no complete group. */
  method CheckGroup(utf: seq<Byte>, ix: nat) returns (n: nat)
    requires utf != [] && utf[|utf| - 1] == 0 && ix < |UpToNul(utf)|
    ensures n == 0 ==> !Groups(UpToNul(utf)[ix..])
    ensures n > 0 ==> ix + n <= |UpToNul(utf)|
    ensures n > 0 ==> (Groups(UpToNul(utf)[ix..]) <==> Groups(UpToNul(utf)[ix + n..]))
  {
    var c := utf[ix];
    n := 1;
    if c >= 0x80 {
      if !Continuation(utf[ix + 1]) {
        NoGroup(utf, ix, 1);
        return 0;
      }
      n := 2;
      if c >= 0xe0 {
        if !Continuation(utf[ix + 2]) {
          NoGroup(utf, ix, 2);
          return 0;
        }
        n := 3;
        if c >= 0xf0 {
          if c >= 0xf8 {
            return 0;
          }
          if !Continuation(utf[ix + 3]) {
            NoGroup(utf, ix, 3);
            return 0;
          }
          n := 4;
        }
      }
    }
    GroupHere(utf, ix, n);
  }

  lemma GroupHere(utf: seq<Byte>, ix: nat, n: nat)
    requires ix < |UpToNul(utf)| && n == GroupLength(utf[ix]) > 0 && ix + n <= |utf|
    requires forall j :: ix < j < ix + n ==> Continuation(utf[j])
    ensures ix + n <= |UpToNul(utf)|
    ensures var text := UpToNul(utf); Groups(text[ix..]) <==> Groups(text[ix + n..])
  {
    var text := UpToNul(utf);
    NonNulPrefix(utf, ix + n);
    GroupsAhead(text[ix..], n);
    assert text[ix..][n..] == text[ix + n..];
  }

  lemma GroupsAhead(s: seq<Byte>, n: nat)
    requires 0 < n <= |s| && n == GroupLength(s[0]) && forall j :: 1 <= j < n ==> Continuation(s[j])
    ensures Groups(s) <==> Groups(s[n..])
  {
    assert IsGroup(s[..n]);
  }

  lemma NonNulPrefix(utf: seq<Byte>, m: nat)
    requires m <= |utf| && forall i :: 0 <= i < m ==> utf[i] != 0
    ensures m <= |UpToNul(utf)|
  {}

  lemma NoGroup(utf: seq<Byte>, ix: nat, k: nat)
    requires ix < |UpToNul(utf)| && 1 <= k && (k < GroupLength(utf[ix]) || GroupLength(utf[ix]) == 0) && ix + k < |utf|
    requires !Continuation(utf[ix + k])
    ensures !Groups(UpToNul(utf)[ix..])
  {
    var rest := UpToNul(utf)[ix..];
    var n := GroupLength(rest[0]);
    if 0 < n <= |rest| {
      assert rest[..n][k] == utf[ix + k];
    }
  }

  lemma EncodedIsGroup(cp: CodePoint)
    ensures IsGroup(Encode(cp))
  {}

  /** Every well-formed text passes the check. */
  lemma {:induction false} WellFormedPasses(cps: seq<CodePoint>)
    ensures Groups(EncodeAll(cps))
  {
    if cps != [] {
      var s, e := EncodeAll(cps), Encode(cps[0]);
      EncodeHead(cps);
      EncodedIsGroup(cps[0]);
      WellFormedPasses(cps[1..]);
      assert s[..|e|] == e && s[|e|..] == EncodeAll(cps[1..]);
    }
  }

  /** Also when it contains NUL characters: what precedes the first NUL byte is well-formed. */
  lemma PrefixPasses(cps: seq<CodePoint>)
    ensures Groups(UpToNul(EncodeAll(cps) + [0]))
  {
    var k := FirstNul(cps);
    var head := EncodeAll(cps[..k]);
    WellFormedPasses(cps[..k]);
    assert cps == cps[..k] + cps[k..];
    EncodeConcat(cps[..k], cps[k..]);
    NulFreeBytes(cps[..k]);
    UpToNulIs(head, EncodeAll(cps[k..]) + [0]);
    assert EncodeAll(cps) + [0] == head + (EncodeAll(cps[k..]) + [0]);
  }

  function FirstNul(cps: seq<CodePoint>): (k: nat)
    ensures k <= |cps| && NulFree(cps[..k]) && (k < |cps| ==> cps[k] == 0)
  {
    if cps == [] || cps[0] == 0 then 0 else 1 + FirstNul(cps[1..])
  }

  lemma {:induction false} NulFreeBytes(cps: seq<CodePoint>)
    requires NulFree(cps)
    ensures 0 !in EncodeAll(cps)
  {
    if cps != [] {
      assert forall i :: 0 <= i < |cps[1..]| ==> cps[1..][i] == cps[i + 1];
      NulFreeBytes(cps[1..]);
      EncodeHead(cps);
      assert 0 !in Encode(cps[0]);
    }
  }

  lemma {:induction false} UpToNulIs(head: seq<Byte>, tail: seq<Byte>)
    requires 0 !in head && tail != [] && tail[0] == 0
    ensures UpToNul(head + tail) == head
  {
    if head == [] {
      assert head + tail == tail;
    } else {
      assert (head + tail)[1..] == head[1..] + tail;
      UpToNulIs(head[1..], tail);
    }
  }

  // ----- lorieUtf8ToUCS4 -----

  /** The code point started by this byte, and how many continuation bytes it announces; -1 for an invalid lead. */
  function LeadBits(b: Byte): (nat, int) {
    if b < 0x80 then (b, 0)
    else if b < 0xc0 then (0, -1)
    else if b < 0xe0 then (b % 32, 1)
    else if b < 0xf0 then (b % 16, 2)
    else if b < 0xf8 then (b % 8, 3)
    else (0, -1)
  }

  /** The continuation bytes of a sequence: `count` are still expected, `consumed` bytes have been counted. */
  function Continued(s: seq<Byte>, dst: nat, count: nat, consumed: nat): (nat, nat)
    decreases count
  {
    if count == 0 then (consumed, if 0xd800 <= dst < 0xe000 then Replacement else dst)
    else if s == [] || !Continuation(s[0]) then (consumed + 1, Replacement)
    else Continued(s[1..], dst * 64 + s[0] % 64, count - 1, consumed + 1)
  }

  function Continuations(s: seq<Byte>): (n: nat)
    ensures n <= |s|
  {
    if s == [] || !Continuation(s[0]) then 0 else 1 + Continuations(s[1..])
  }

  /** How many of the given bytes the decoder counts as consumed, and the code point it reports. */
  function Decoded(s: seq<Byte>): (nat, nat) {
    if s == [] then (0, Replacement)
    else
      var (bits, count) := LeadBits(s[0]);
      if count < 0 then (1 + Continuations(s[1..]), Replacement) else Continued(s[1..], bits, count, 1)
  }

  /** Enough of src is there for what the decoder reads at `at` when told it may read `max` bytes. */
  predicate Readable(src: seq<Byte>, at: nat, max: nat) {
    at <= |src| && (at + max <= |src| || (at < |src| && LeadBits(src[at]).1 >= 0 && at + LeadBits(src[at]).1 < |src|))
  }

  /** What the decoder may look at. */
  function Window(src: seq<Byte>, at: nat, max: nat): seq<Byte>
    requires at <= |src|
  {
    src[at..if at + max <= |src| then at + max else |src|]
  }

  method Utf8ToUCS4(src: seq<Byte>, at: nat, max: nat) returns (consumed: nat, ucs: nat)
    requires Readable(src, at, max)
    ensures (consumed, ucs) == Decoded(Window(src, at, max))
  {
    if max == 0 {
      return 0, Replacement;
    }
    var (bits, count) := LeadBits(src[at]);
    ghost var s := Window(src, at, max);
    assert s[0] == src[at] && s[1..] == Window(src, at + 1, max - 1);
    if count < 0 {
      consumed := SkipContinuations(src, at + 1, max - 1);
      return 1 + consumed, Replacement;
    }
    consumed, ucs := ReadContinuations(src, at + 1, max - 1, bits, count);
  }

  /** The loop over the bytes of an invalid sequence. */
  method SkipContinuations(src: seq<Byte>, at: nat, max: nat) returns (n: nat)
    requires at + max <= |src|
    ensures n == Continuations(Window(src, at, max))
  {
    n := 0;
    while n < max && Continuation(src[at + n])
      invariant n <= max
      invariant Continuations(Window(src, at, max)) == n + Continuations(Window(src, at + n, max - n))
    {
      ghost var w := Window(src, at + n, max - n);
      assert w[0] == src[at + n] && w[1..] == Window(src, at + n + 1, max - n - 1);
      n := n + 1;
    }
    assert n < max ==> Window(src, at + n, max - n)[0] == src[at + n];
  }

  /** The loop over the announced continuation bytes. */
  method ReadContinuations(src: seq<Byte>, at: nat, max: nat, bits: nat, count: nat) returns (consumed: nat, ucs: nat)
    requires at <= |src| && (at + max <= |src| || at + count <= |src|)
    ensures (consumed, ucs) == Continued(Window(src, at, max), bits, count, 1)
  {
    ucs, consumed := bits, 1;
    var i := 0;
    while i < count
      invariant 0 <= i <= count && i <= max && consumed == i + 1
      invariant at + i <= |src|
      invariant Continued(Window(src, at, max), bits, count, 1)
             == Continued(Window(src, at + i, max - i), ucs, count - i, consumed)
    {
      ghost var w := Window(src, at + i, max - i);
      consumed := consumed + 1;
      if i == max || !Continuation(src[at + i]) {
        assert i < max ==> w[0] == src[at + i];
        return consumed, Replacement;
      }
      assert w[0] == src[at + i] && w[1..] == Window(src, at + i + 1, max - i - 1);
      ucs := ucs * 64 + src[at + i] % 64;
      i := i + 1;
    }
    if 0xd800 <= ucs < 0xe000 {
      ucs := Replacement;
    }
  }

  lemma ContinuedStep(b: Byte, s: seq<Byte>, dst: nat, count: nat, consumed: nat)
    requires Continuation(b) && count > 0
    ensures Continued([b] + s, dst, count, consumed) == Continued(s, dst * 64 + b % 64, count - 1, consumed + 1)
  {
    assert ([b] + s)[1..] == s;
  }

  lemma ContinuedTwo(b: Byte, c: Byte, s: seq<Byte>, dst: nat, consumed: nat)
    requires Continuation(b) && Continuation(c)
    ensures Continued([b, c] + s, dst, 2, consumed) == Continued(s, (dst * 64 + b % 64) * 64 + c % 64, 0, consumed + 2)
  {
    assert [b, c] + s == [b] + ([c] + s);
    ContinuedStep(b, [c] + s, dst, 2, consumed);
    ContinuedStep(c, s, dst * 64 + b % 64, 1, consumed + 1);
  }

  lemma Digits(cp: nat)
    ensures cp / 64 * 64 + Tail(cp) % 64 == cp
    ensures cp / 4096 * 64 + Tail(cp / 64) % 64 == cp / 64
    ensures cp / 262144 * 64 + Tail(cp / 4096) % 64 == cp / 4096
  {
    Digit(cp);
    Digit(cp / 64);
    Digit(cp / 4096);
    Quotients(cp);
  }

  lemma Digit(n: nat)
    ensures n / 64 * 64 + Tail(n) % 64 == n
  {}

  lemma Quotients(n: nat)
    ensures n / 64 / 64 == n / 4096 && n / 4096 / 64 == n / 262144
  {}

  lemma DecodesTwo(lead: Byte, bits: nat, b: Byte, rest: seq<Byte>)
    requires LeadBits(lead) == (bits, 1) && Continuation(b)
    ensures Decoded([lead, b] + rest) == Continued(rest, bits * 64 + b % 64, 0, 2)
  {
    DecodesLead([b], rest, lead, 1, bits);
    assert [lead, b] + rest == [lead] + [b] + rest;
    ContinuedStep(b, rest, bits, 1, 1);
  }

  lemma DecodesThree(lead: Byte, bits: nat, b: Byte, c: Byte, rest: seq<Byte>)
    requires LeadBits(lead) == (bits, 2) && Continuation(b) && Continuation(c)
    ensures Decoded([lead, b, c] + rest) == Continued(rest, (bits * 64 + b % 64) * 64 + c % 64, 0, 3)
  {
    DecodesLead([b, c], rest, lead, 2, bits);
    assert [lead, b, c] + rest == [lead] + [b, c] + rest;
    ContinuedTwo(b, c, rest, bits, 1);
  }

  lemma DecodesFour(lead: Byte, bits: nat, b: Byte, c: Byte, d: Byte, rest: seq<Byte>)
    requires LeadBits(lead) == (bits, 3) && Continuation(b) && Continuation(c) && Continuation(d)
    ensures Decoded([lead, b, c, d] + rest)
         == Continued(rest, ((bits * 64 + b % 64) * 64 + c % 64) * 64 + d % 64, 0, 4)
  {
    DecodesLead([b, c, d], rest, lead, 3, bits);
    assert [lead, b, c, d] + rest == [lead] + [b, c, d] + rest && [b, c, d] + rest == [b] + ([c, d] + rest);
    ContinuedStep(b, [c, d] + rest, bits, 3, 1);
    ContinuedTwo(c, d, rest, bits * 64 + b % 64, 2);
  }

  lemma DecodesLarge(cp: CodePoint, rest: seq<Byte>)
    requires cp >= 0x10000
    ensures Decoded(Encode(cp) + rest) == (4, cp)
  {
    Digits(cp);
    DecodesFour(0xf0 + cp / 262144, cp / 262144, Tail(cp / 4096), Tail(cp / 64), Tail(cp), rest);
  }

  /** On well-formed input the decoder consumes exactly one encoded code point and reports it. */
  lemma DecodesEncoded(cp: CodePoint, rest: seq<Byte>)
    ensures Decoded(Encode(cp) + rest) == (|Encode(cp)|, cp)
  {
    Digits(cp);
    if cp < 0x80 {
      DecodesLead([], rest, cp, 0, cp);
      assert [cp] + rest == [cp] + [] + rest && [] + rest == rest;
    } else if cp < 0x800 {
      DecodesTwo(0xc0 + cp / 64, cp / 64, Tail(cp), rest);
    } else if cp < 0x10000 {
      DecodesThree(0xe0 + cp / 4096, cp / 4096, Tail(cp / 64), Tail(cp), rest);
    } else {
      DecodesLarge(cp, rest);
    }
  }

  lemma DecodesLead(tail: seq<Byte>, rest: seq<Byte>, lead: Byte, count: nat, bits: nat)
    requires LeadBits(lead) == (bits, count)
    ensures Decoded([lead] + tail + rest) == Continued(tail + rest, bits, count, 1)
  {
    assert ([lead] + tail + rest)[1..] == tail + rest;
  }

  // ----- lorieUtf8ToLatin1 -----

  /** The code points the conversion loop sees up to the first NUL. */
  function CodePoints(s: seq<Byte>): seq<nat>
    decreases |s|
  {
    if s == [] || s[0] == 0 then []
    else
      var (n, u) := Decoded(s);
      [u] + if 0 < n <= |s| then CodePoints(s[n..]) else []
  }

  /** Decoding inverts encoding. */
  lemma {:induction false} CodePointsOfText(cps: seq<CodePoint>)
    requires NulFree(cps)
    ensures CodePoints(EncodeAll(cps)) == cps
  {
    if cps != [] {
      var s, e := EncodeAll(cps), Encode(cps[0]);
      EncodeHead(cps);
      DecodesEncoded(cps[0], EncodeAll(cps[1..]));
      NonZeroLead(cps[0]);
      assert forall i :: 0 <= i < |cps[1..]| ==> cps[1..][i] == cps[i + 1];
      CodePointsOfText(cps[1..]);
      assert s[|e|..] == EncodeAll(cps[1..]);
    }
  }

  lemma NonZeroLead(cp: CodePoint)
    requires cp != 0
    ensures Encode(cp)[0] != 0
  {}

  function Latin1Char(u: nat): Byte { if u > 0xff then QuestionMark else u }

  function Latin1Of(us: seq<nat>): seq<Byte> { seq(|us|, i requires 0 <= i < |us| => Latin1Char(us[i])) }

  const FirstBudget: nat := 0xffffffffffffffff     // size_t in_len = -1
  const SecondBudget: nat := 0xffffffff            // 4.294967295E9

  /** One turn of either loop on well-formed text, `done` code points in. */
  method NextCodePoint(src: seq<Byte>, at: nat, budget: nat, ghost cps: seq<CodePoint>, ghost done: nat)
    returns (len: nat, ucs: nat)
    requires src == EncodeAll(cps) + [0] && NulFree(cps) && done < |cps|
    requires at == |EncodeAll(cps[..done])| && budget + at >= |src| - 1
    ensures ucs == cps[done] && at + len == |EncodeAll(cps[..done + 1])| < |src|
  {
    EncodeAt(cps, done);
    ghost var e, rest := Encode(cps[done]), EncodeAll(cps[done + 1..]);
    assert src[at..] == e + (rest + [0]);
    LeadAnnounces(cps[done]);
    assert src[at] == e[0];
    len, ucs := Utf8ToUCS4(src, at, budget);
    if at + budget >= |src| {
      assert Window(src, at, budget) == src[at..];
      DecodesEncoded(cps[done], rest + [0]);
    } else {
      assert Window(src, at, budget) == e + rest;
      DecodesEncoded(cps[done], rest);
    }
  }

  lemma LeadAnnounces(cp: CodePoint)
    ensures LeadBits(Encode(cp)[0]).1 == |Encode(cp)| - 1
  {}

  lemma AtTheEnd(src: seq<Byte>, cps: seq<CodePoint>, done: nat)
    requires src == EncodeAll(cps) + [0] && NulFree(cps) && done <= |cps|
    ensures |EncodeAll(cps[..done])| < |src|
    ensures src[|EncodeAll(cps[..done])|] == 0 <==> done == |cps|
  {
    if done < |cps| {
      EncodeAt(cps, done);
      NonZeroLead(cps[done]);
      var at := |EncodeAll(cps[..done])|;
      assert src[at] == Encode(cps[done])[0];
    } else {
      assert cps[..done] == cps;
    }
  }

  /** src is the NUL-terminated encoding of the text cps.  The two loops take the same steps, `sz` of them, and the
      second fills the buffer exactly. */
  method Utf8ToLatin1(src: seq<Byte>, ghost cps: seq<CodePoint>) returns (latin1: seq<Byte>)
    requires src == EncodeAll(cps) + [0] && NulFree(cps) && |src| <= 0x1_0000_0000
    ensures latin1 == Latin1Of(cps)
  {
    var sz, at, budget := 0, 0, FirstBudget;
    AtTheEnd(src, cps, 0);
    assert EncodeAll(cps[..0]) == [];
    while budget > 0 && src[at] != 0
      invariant sz <= |cps| && at == |EncodeAll(cps[..sz])| < |src| && budget == FirstBudget - at
      invariant src[at] == 0 <==> sz == |cps|
      decreases |cps| - sz
    {
      var len, ucs := NextCodePoint(src, at, budget, cps, sz);
      at, budget, sz := at + len, budget - len, sz + 1;
      AtTheEnd(src, cps, sz);
    }
    var out := new Byte[sz + 1](_ => 0);
    latin1 := Fill(src, cps, out);
  }

  method Fill(src: seq<Byte>, ghost cps: seq<CodePoint>, out: array<Byte>) returns (latin1: seq<Byte>)
    requires src == EncodeAll(cps) + [0] && NulFree(cps) && |src| <= 0x1_0000_0000
    requires out.Length == |cps| + 1 && forall i :: 0 <= i < out.Length ==> out[i] == 0
    modifies out
    ensures out[..] == Latin1Of(cps) + [0] && latin1 == Latin1Of(cps)
  {
    var position, at, budget := 0, 0, SecondBudget;
    AtTheEnd(src, cps, 0);
    assert EncodeAll(cps[..0]) == [];
    while budget > 0 && src[at] != 0
      invariant position <= |cps| && at == |EncodeAll(cps[..position])| < |src| && budget == SecondBudget - at
      invariant src[at] == 0 <==> position == |cps|
      invariant forall i :: 0 <= i < position ==> out[i] == Latin1Char(cps[i])
      invariant forall i :: position <= i < out.Length ==> out[i] == 0
      decreases |cps| - position
    {
      var len, ucs := NextCodePoint(src, at, budget, cps, position);
      out[position] := if ucs > 0xff then QuestionMark else ucs;
      at, budget, position := at + len, budget - len, position + 1;
      AtTheEnd(src, cps, position);
    }
    assert src[|src| - 1] == 0;
    assert budget == 0 ==> at == |src| - 1;
    assert out[..] == Latin1Of(cps) + [0];
    latin1 := StrDup(out, |cps|);
  }

  /** strdup: a copy up to the first NUL. */
  method StrDup(out: array<Byte>, ghost n: nat) returns (copy: seq<Byte>)
    requires n < out.Length && out[n] == 0 && forall i :: 0 <= i < n ==> out[i] != 0
    ensures copy == out[..n]
  {
    var i := 0;
    while out[i] != 0
      invariant i <= n
      decreases n - i
    {
      i := i + 1;
    }
    copy := out[..i];
  }

  /** Latin-1 to UTF-8 to Latin-1 is the identity on NUL-free text. */
  lemma Latin1RoundTrip(latin1: seq<Byte>)
    requires 0 !in latin1
    ensures CodePoints(EncodeAll(Text(latin1))) == latin1
    ensures Latin1Of(CodePoints(EncodeAll(Text(latin1)))) == latin1
  {
    CodePointsOfText(Text(latin1));
  }

  /** What comes back from any text: the Latin-1 characters themselves and a question mark for each other one; the
      text survives exactly when it is Latin-1. */
  lemma Latin1Faithful(cps: seq<CodePoint>)
    requires NulFree(cps)
    ensures Latin1Of(CodePoints(EncodeAll(cps))) == Latin1Of(cps)
    ensures (forall i :: 0 <= i < |cps| ==> Latin1Of(cps)[i] == cps[i])
       <==> (forall i :: 0 <= i < |cps| ==> cps[i] <= 0xff)
  {
    CodePointsOfText(cps);
    assert forall i :: 0 <= i < |cps| ==> (Latin1Of(cps)[i] == cps[i] <==> cps[i] <= 0xff);
  }
}
