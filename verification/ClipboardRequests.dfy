/**
 Answering selection requests while the server owns CLIPBOARD (section 2.2 of the ICCCM): lorieConvertSelection,
 lorieProcConvertSelection, lorieHandleClipboardAnnounce and lorieHandleClipboardData, and the messages from the
 activity that feed them.
 */
module ClipboardRequests {
  import opened Options
  import opened Codec = ClipboardCodec

  type Atom = nat
  const NoAtom: Atom := 0                              // None

  datatype Target = TARGETS | TIMESTAMP | STRING | TEXT | UTF8_STRING | OtherTarget(atom: Atom)

  /** A ConvertSelection request; `serial` numbers the requests in the order they arrive. */
  datatype Request = Request(
    serial: nat, client: nat, selection: Atom, target: Target, property: Atom, requestor: nat, time: nat)

  /** The bytes up to the terminating NUL. */
  type CString = s: seq<Byte> | 0 !in s

  /** Clipboard text; `version` counts the changes of the Android clipboard. */
  datatype Clip = Clip(version: nat, text: CString)

  /** What a conversion stores, and under which name (realProperty). */
  datatype Place = UnderProperty(property: Atom) | UnderTarget(target: Target)
  datatype Content = TargetList(targets: seq<Target>) | Stamp | Text(bytes: seq<Byte>)
  datatype Write = Write(place: Place, content: Content)

  /** A SelectionNotify event, what was stored if anything, and for the record the serial it answers,
      the version of the text and the last announced version when it was sent. */
  datatype Reply = Reply(
    serial: nat, client: nat, selection: Atom, target: Target, property: Atom, requestor: nat, time: nat,
    written: Option<Write>, version: Option<nat>, announced: nat)

  /** What the X server answers to the lookups and allocations of one conversion. */
  datatype Env = Env(selectionFound: bool, windowFound: bool, roomLeft: bool, changed: bool)

  datatype Conversion = Failed | Queued | Done(content: Content)

  predicate IsText(t: Target) { t.STRING? || t.TEXT? || t.UTF8_STRING? }

  const Offered: seq<Target> := [TARGETS, TIMESTAMP, STRING, TEXT, UTF8_STRING]

  function RealProperty(r: Request): Place {
    if r.property != NoAtom then UnderProperty(r.property) else UnderTarget(r.target)
  }

  /** lorieConvertSelection, without its effects. */
  function Convert(e: Env, r: Request, data: Option<Clip>): (c: Conversion)
    ensures c.Queued? ==> data.None? && IsText(r.target)
    ensures c.Done? ==> (c.content.Text? <==> IsText(r.target)) && (c.content.Text? ==> data.Some?)
  {
    if !e.selectionFound || !e.windowFound then Failed
    else if r.target.TARGETS? then if e.changed then Done(TargetList(Offered)) else Failed
    else if r.target.TIMESTAMP? then if e.changed then Done(Stamp) else Failed
    else if data.None? then if IsText(r.target) && e.roomLeft then Queued else Failed
    else if r.target.STRING? || r.target.TEXT? then
      if e.roomLeft && e.changed then Done(Text(Latin1Of(CodePoints(data.value.text)))) else Failed
    else if r.target.UTF8_STRING? then
      if e.changed then Done(Text(data.value.text)) else Failed
    else Failed
  }

  function Success(r: Request, content: Content, version: Option<nat>, announced: nat): Reply {
    Reply(r.serial, r.client, r.selection, r.target, r.property, r.requestor, r.time,
          Some(Write(RealProperty(r), content)), version, announced)
  }

  function Refusal(r: Request, announced: nat): Reply {
    Reply(r.serial, r.client, r.selection, r.target, NoAtom, r.requestor, r.time, None, None, announced)
  }

  /** The reply to a request that is not queued. */
  function Answer(e: Env, r: Request, data: Option<Clip>, announced: nat): Reply {
    match Convert(e, r, data)
    case Done(c) => Success(r, c, if c.Text? && data.Some? then Some(data.value.version) else None, announced)
    case _ => Refusal(r, announced)
  }

  /** The clipboard side of the server: cachedData, the pending list (newest first), what was sent, and whether the
      server owns CLIPBOARD. */
  datatype Desk = Desk(cached: Option<Clip>, pending: seq<Request>, sent: seq<Reply>, announced: nat, owned: bool)

  /** A request on a selection that somebody else owns is not the desk's. */
  function Asked(d: Desk, e: Env, r: Request): Desk {
    if !d.owned then d
    else if Convert(e, r, d.cached).Queued? then d.(pending := [r] + d.pending)
    else d.(sent := d.sent + [Answer(e, r, d.cached, d.announced)])
  }

  /** `granted`: lorieOwnSelection succeeded. */
  function Announced(d: Desk, version: nat, granted: bool): Desk {
    d.(cached := None, announced := version, owned := d.owned || granted)
  }

  function Answers(rs: seq<Request>, envs: nat -> Env, data: Clip, announced: nat): seq<Reply>
  {
    if rs == [] then []
    else [Answer(envs(rs[0].serial), rs[0], Some(data), announced)] + Answers(rs[1..], envs, data, announced)
  }

  lemma AnswersHead(sent: seq<Reply>, rs: seq<Request>, envs: nat -> Env, data: Clip, announced: nat)
    requires rs != []
    ensures sent + Answers(rs, envs, data, announced)
         == (sent + [Answer(envs(rs[0].serial), rs[0], Some(data), announced)])
            + Answers(rs[1..], envs, data, announced)
  {}

  function Delivered(d: Desk, data: Clip, envs: nat -> Env): Desk {
    Desk(Some(data), [], d.sent + Answers(d.pending, envs, data, d.announced), d.announced, d.owned)
  }

  /** One turn of the loop in lorieHandleClipboardData, with whatever data it was given: the newest request is
      converted, answered with a refusal if that fails, and then the head of the list is taken off. */
  function Turn(d: Desk, e: Env, data: Option<Clip>): Desk
    requires d.pending != []
  {
    var r := d.pending[0];
    if Convert(e, r, data).Queued? then d.(pending := ([r] + d.pending)[1..])
    else d.(sent := d.sent + [Answer(e, r, data, d.announced)], pending := d.pending[1..])
  }

  class ClipboardServer {
    var cached: Option<Clip>
    var pending: seq<Request>
    var sent: seq<Reply>
    var announced: nat
    var owned: bool
    var asked: nat                                     // lorieRequestClipboard messages

    ghost function View(): Desk reads this { Desk(cached, pending, sent, announced, owned) }

    constructor ()
      ensures View() == Desk(None, [], [], 0, false)
    {
      cached, pending, sent, announced, owned, asked := None, [], [], 0, false, 0;
    }

    /** lorieConvertSelection: sends the reply or queues the request, or does neither and fails. */
    method ConvertSelection(e: Env, r: Request, data: Option<Clip>) returns (ok: bool)
      modifies this`pending, this`sent, this`asked
      ensures ok <==> !Convert(e, r, data).Failed?
      ensures pending == if Convert(e, r, data).Queued? then [r] + old(pending) else old(pending)
      ensures sent == if Convert(e, r, data).Done? then old(sent) + [Answer(e, r, data, announced)] else old(sent)
      ensures asked == old(asked) + if Convert(e, r, data).Queued? then 1 else 0
    {
      if !e.selectionFound || !e.windowFound {
        return false;
      }
      var content := Stamp;
      if r.target.TARGETS? {
        if !e.changed {
          return false;
        }
        content := TargetList(Offered);
      } else if r.target.TIMESTAMP? {
        if !e.changed {
          return false;
        }
      } else if data.None? {
        if !IsText(r.target) || !e.roomLeft {
          return false;
        }
        pending := [r] + pending;
        asked := asked + 1;
        return true;
      } else if r.target.STRING? || r.target.TEXT? {
        if !e.roomLeft || !e.changed {
          return false;
        }
        content := Text(Latin1Of(CodePoints(data.value.text)));
      } else if r.target.UTF8_STRING? {
        if !e.changed {
          return false;
        }
        content := Text(data.value.text);
      } else {
        return false;
      }
      var version := if content.Text? && data.Some? then Some(data.value.version) else None;
      sent := sent + [Success(r, content, version, announced)];
      ok := true;
    }

    /** lorieProcConvertSelection; a request on a selection of somebody else goes to the original handler. */
    method ProcConvertSelection(e: Env, r: Request) returns (handled: bool)
      modifies this`pending, this`sent, this`asked
      ensures handled == owned
      ensures View() == Asked(old(View()), e, r)
      ensures asked == old(asked) + |pending| - |old(pending)|
    {
      handled := owned;
      if !owned {
        return;
      }
      var ok := ConvertSelection(e, r, cached);
      if !ok {
        sent := sent + [Refusal(r, announced)];
      }
    }

    /** lorieHandleClipboardAnnounce */
    method HandleAnnounce(version: nat, granted: bool)
      modifies this`cached, this`announced, this`owned
      ensures View() == Announced(old(View()), version, granted)
    {
      cached, announced := None, version;
      if granted {
        owned := true;
      }
    }

    /** One turn of the loop in lorieHandleClipboardData. */
    method AnswerNewest(e: Env, data: Option<Clip>)
      requires pending != []
      modifies this`pending, this`sent, this`asked
      ensures View() == Turn(old(View()), e, data)
      ensures data.Some? ==> asked == old(asked)
    {
      var r := pending[0];
      var ok := ConvertSelection(e, r, data);
      if !ok {
        sent := sent + [Refusal(r, announced)];
      }
      pending := pending[1..];
    }

    /** lorieHandleClipboardData: every pending request is answered, newest first. */
    method HandleData(data: Clip, envs: nat -> Env)
      modifies this
      ensures View() == Delivered(old(View()), data, envs) && asked == old(asked)
    {
      cached := Some(data);
      while pending != []
        invariant cached == Some(data) && announced == old(announced) && owned == old(owned)
        invariant asked == old(asked)
        invariant sent + Answers(pending, envs, data, announced)
               == old(sent) + Answers(old(pending), envs, data, announced)
        decreases |pending|
      {
        AnswersHead(sent, pending, envs, data, announced);
        AnswerNewest(envs(pending[0].serial), Some(data));
      }
    }
  }

  // ----- all runs, with the activity at the other end -----

  datatype Message = AnnounceMsg(version: nat) | DataMsg(clip: Clip)

  /** `clip` is the Android clipboard, `channel` what the activity sent and the server has not handled. */
  datatype State = State(desk: Desk, received: seq<Request>, clip: Clip, channel: seq<Message>)

  const Initial := State(Desk(None, [], [], 0, false), [], Clip(0, []), [])

  datatype Action =
    | Ask(env: Env, request: Request)                  // its serial is assigned on arrival
    | ChangeClip(text: CString)
    | SendAnnounce
    | SendData(syncEnabled: bool)                      // requestClipboard sends an empty text when sync is off
    | Handle(envs: nat -> Env, granted: bool)
    | LoseSelection                                    // another client takes CLIPBOARD

  function Step(s: State, a: Action): State {
    match a
    case Ask(env, request) =>
      var r := request.(serial := |s.received|);
      if !s.desk.owned then s else s.(desk := Asked(s.desk, env, r), received := s.received + [r])
    case ChangeClip(text) => s.(clip := Clip(s.clip.version + 1, text))
    case SendAnnounce => s.(channel := s.channel + [AnnounceMsg(s.clip.version)])
    case SendData(on) => s.(channel := s.channel + [DataMsg(if on then s.clip else s.clip.(text := []))])
    case LoseSelection => s.(desk := s.desk.(owned := false))
    case Handle(envs, granted) =>
      if s.channel == [] then s
      else
        var desk :=
          match s.channel[0]
          case AnnounceMsg(v) => Announced(s.desk, v, granted)
          case DataMsg(clip) => Delivered(s.desk, clip, envs);
        s.(desk := desk, channel := s.channel[1..])
  }

  function Exec(acts: seq<Action>): State {
    if acts == [] then Initial else Step(Exec(acts[..|acts| - 1]), acts[|acts| - 1])
  }

  function Version(m: Message): nat { if m.AnnounceMsg? then m.version else m.clip.version }

  /** The reply answers the request: same client, selection, target, requestor and time; its property is the
      request's, or None. */
  predicate AnswersTo(p: Reply, r: Request) {
    && p.serial == r.serial && p.client == r.client && p.selection == r.selection && p.target == r.target
    && p.requestor == r.requestor && p.time == r.time && (p.property == r.property || p.property == NoAtom)
  }

  function SerialsSent(ps: seq<Reply>): multiset<nat> {
    if ps == [] then multiset{} else SerialsSent(ps[..|ps| - 1]) + multiset{ps[|ps| - 1].serial}
  }

  function SerialsPending(rs: seq<Request>): multiset<nat> {
    if rs == [] then multiset{} else multiset{rs[0].serial} + SerialsPending(rs[1..])
  }

  function UpTo(n: nat): (m: multiset<nat>)
    ensures forall i: nat :: m[i] == if i < n then 1 else 0
  {
    if n == 0 then multiset{} else UpTo(n - 1) + multiset{n - 1}
  }

  /** Every request so far is answered once or pending, never both. */
  predicate Balanced(s: State) {
    SerialsSent(s.desk.sent) + SerialsPending(s.desk.pending) == UpTo(|s.received|)
  }

  ghost predicate Matched(s: State) {
    && (forall i :: 0 <= i < |s.received| ==> s.received[i].serial == i)
    && (forall r :: r in s.desk.pending ==> r.serial < |s.received| && s.received[r.serial] == r && IsText(r.target))
    && (forall p :: p in s.desk.sent ==> p.serial < |s.received| && AnswersTo(p, s.received[p.serial]))
  }

  /** Versions only grow along the way from the Android clipboard through the channel to the cache. */
  ghost predicate Fresh(s: State) {
    && (forall i, j :: 0 <= i < j < |s.channel| ==> Version(s.channel[i]) <= Version(s.channel[j]))
    && (forall i :: 0 <= i < |s.channel| ==> s.desk.announced <= Version(s.channel[i]) <= s.clip.version)
    && s.desk.announced <= s.clip.version
    && (s.desk.cached.Some? ==> s.desk.announced <= s.desk.cached.value.version)
    && (forall p :: p in s.desk.sent && p.version.Some? ==> p.announced <= p.version.value)
  }

  lemma {:induction false} SentConcat(a: seq<Reply>, b: seq<Reply>)
    ensures SerialsSent(a + b) == SerialsSent(a) + SerialsSent(b)
  {
    if b == [] {
      assert a + b == a;
    } else {
      assert (a + b)[..|a + b| - 1] == a + b[..|b| - 1];
      SentConcat(a, b[..|b| - 1]);
    }
  }

  lemma {:induction false} AnswersCover(rs: seq<Request>, envs: nat -> Env, data: Clip, announced: nat)
    ensures SerialsSent(Answers(rs, envs, data, announced)) == SerialsPending(rs)
  {
    if rs != [] {
      var first := Answer(envs(rs[0].serial), rs[0], Some(data), announced);
      SentConcat([first], Answers(rs[1..], envs, data, announced));
      assert [first][..0] == [];
      AnswersCover(rs[1..], envs, data, announced);
    }
  }

  lemma SentSnoc(ps: seq<Reply>, p: Reply)
    ensures SerialsSent(ps + [p]) == SerialsSent(ps) + multiset{p.serial}
  {
    assert (ps + [p])[..|ps|] == ps;
  }

  lemma PendingCons(r: Request, rs: seq<Request>)
    ensures SerialsPending([r] + rs) == multiset{r.serial} + SerialsPending(rs)
  {
    assert ([r] + rs)[1..] == rs;
  }

  lemma AnswerSerial(e: Env, r: Request, data: Option<Clip>, announced: nat)
    ensures Answer(e, r, data, announced).serial == r.serial
  {}

  lemma OneMore(sent: multiset<nat>, pending: multiset<nat>, all: multiset<nat>, n: nat)
    requires sent + pending == all
    ensures sent + (multiset{n} + pending) == all + multiset{n} && (sent + multiset{n}) + pending == all + multiset{n}
  {}

  lemma AskBalanced(d: Desk, e: Env, r: Request, n: nat)
    requires SerialsSent(d.sent) + SerialsPending(d.pending) == UpTo(n) && r.serial == n && d.owned
    ensures SerialsSent(Asked(d, e, r).sent) + SerialsPending(Asked(d, e, r).pending) == UpTo(n + 1)
  {
    OneMore(SerialsSent(d.sent), SerialsPending(d.pending), UpTo(n), n);
    assert UpTo(n + 1) == UpTo(n) + multiset{n};
    if Convert(e, r, d.cached).Queued? {
      PendingCons(r, d.pending);
    } else {
      AnswerSerial(e, r, d.cached, d.announced);
      SentSnoc(d.sent, Answer(e, r, d.cached, d.announced));
    }
  }

  lemma DataBalanced(d: Desk, data: Clip, envs: nat -> Env)
    ensures SerialsSent(Delivered(d, data, envs).sent) == SerialsSent(d.sent) + SerialsPending(d.pending)
  {
    AnswersCover(d.pending, envs, data, d.announced);
    SentConcat(d.sent, Answers(d.pending, envs, data, d.announced));
  }

  lemma HandleBalanced(s: State, envs: nat -> Env, granted: bool)
    requires Balanced(s)
    ensures Balanced(Step(s, Handle(envs, granted)))
  {
    if s.channel != [] && s.channel[0].DataMsg? {
      var t := Step(s, Handle(envs, granted));
      DataBalanced(s.desk, s.channel[0].clip, envs);
      assert t.desk == Delivered(s.desk, s.channel[0].clip, envs) && t.received == s.received;
      assert SerialsSent(t.desk.sent) + multiset{} == SerialsSent(t.desk.sent);
    }
  }

  lemma BalancedKept(s: State, a: Action)
    requires Balanced(s)
    ensures Balanced(Step(s, a))
  {
    match a
    case Ask(env, request) =>
      if s.desk.owned {
        AskBalanced(s.desk, env, request.(serial := |s.received|), |s.received|);
      }
    case Handle(envs, granted) => HandleBalanced(s, envs, granted);
    case ChangeClip(_) => case SendAnnounce => case SendData(_) => case LoseSelection =>
  }

  predicate ServedFrom(p: Reply, rs: seq<Request>, data: Clip, announced: nat) {
    && p.announced == announced && (p.version.Some? ==> p.version.value == data.version)
    && exists i: nat :: i < |rs| && AnswersTo(p, rs[i])
  }

  lemma {:induction false} AnswersMatch(rs: seq<Request>, envs: nat -> Env, data: Clip, announced: nat)
    ensures forall p :: p in Answers(rs, envs, data, announced) ==> ServedFrom(p, rs, data, announced)
  {
    if rs != [] {
      var first := Answer(envs(rs[0].serial), rs[0], Some(data), announced);
      AnswersMatch(rs[1..], envs, data, announced);
      forall p | p in Answers(rs, envs, data, announced) ensures ServedFrom(p, rs, data, announced) {
        if p == first {
          assert AnswersTo(p, rs[0]);
        } else {
          assert ServedFrom(p, rs[1..], data, announced);
          var i: nat :| i < |rs[1..]| && AnswersTo(p, rs[1..][i]);
          assert AnswersTo(p, rs[i + 1]);
        }
      }
    }
  }

  lemma MatchedKept(s: State, a: Action)
    requires Matched(s)
    ensures Matched(Step(s, a))
  {
    match a
    case Ask(env, request) =>
    case Handle(envs, granted) =>
      if s.channel != [] && s.channel[0].DataMsg? {
        AnswersMatch(s.desk.pending, envs, s.channel[0].clip, s.desk.announced);
      }
    case _ =>
  }

  lemma FreshKept(s: State, a: Action)
    requires Fresh(s)
    ensures Fresh(Step(s, a))
  {
    match a
    case Ask(env, request) =>
    case Handle(envs, granted) =>
      if s.channel != [] && s.channel[0].DataMsg? {
        AnswersMatch(s.desk.pending, envs, s.channel[0].clip, s.desk.announced);
      }
    case SendAnnounce => case SendData(_) => case ChangeClip(_) => case LoseSelection =>
  }

  lemma {:induction false} ReachableInv(acts: seq<Action>)
    ensures Balanced(Exec(acts)) && Matched(Exec(acts)) && Fresh(Exec(acts))
  {
    if acts != [] {
      var before, a := acts[..|acts| - 1], acts[|acts| - 1];
      ReachableInv(before);
      BalancedKept(Exec(before), a);
      MatchedKept(Exec(before), a);
      FreshKept(Exec(before), a);
    }
  }

  /** On every run: each request is answered exactly once or is pending exactly once; each reply carries the fields
      of the request it answers; and no text is served that is older than the last announced change. */
  lemma AnsweredOnce(acts: seq<Action>, i: nat)
    requires i < |Exec(acts).received|
    ensures var s := Exec(acts);
      && SerialsSent(s.desk.sent)[i] + SerialsPending(s.desk.pending)[i] == 1
      && (forall p :: p in s.desk.sent && p.serial == i ==> AnswersTo(p, s.received[i]))
      && (forall p :: p in s.desk.sent && p.version.Some? ==> p.announced <= p.version.value)
  {
    ReachableInv(acts);
    var s := Exec(acts);
    assert (SerialsSent(s.desk.sent) + SerialsPending(s.desk.pending))[i] == 1;
  }

  /** Once the activity's text has been handled nothing is pending: every request so far has its one reply. */
  lemma DataAnswersEverything(acts: seq<Action>, envs: nat -> Env, granted: bool, i: nat)
    requires var s := Exec(acts); s.channel != [] && s.channel[0].DataMsg? && i < |s.received|
    ensures var t := Step(Exec(acts), Handle(envs, granted)); t.desk.pending == [] && SerialsSent(t.desk.sent)[i] == 1
  {
    var more := acts + [Handle(envs, granted)];
    assert more[..|more| - 1] == acts;
    AnsweredOnce(more, i);
  }

  // ----- what a conversion achieves -----

  const AllThere := Env(true, true, true, true)

  /** With data, a conversion succeeds exactly if selection and window are found, the target is one of the five, the
      property can be changed, and there is memory for a conversion to Latin-1. */
  lemma SucceedsIff(e: Env, r: Request, data: Clip, announced: nat)
    ensures Answer(e, r, Some(data), announced).written.Some?
       <==> e.selectionFound && e.windowFound && e.changed && !r.target.OtherTarget?
            && (r.target.STRING? || r.target.TEXT? ==> e.roomLeft)
  {}

  /** It stores under exactly the property the request names, and under the target's name if it names none. */
  lemma StoredWhereAsked(r: Request, data: Clip, announced: nat)
    requires !r.target.OtherTarget?
    ensures var p := Answer(AllThere, r, Some(data), announced);
      && p.written.Some? && p.property == r.property
      && (r.property != NoAtom ==> p.written.value.place == UnderProperty(r.property))
      && (r.property == NoAtom ==> p.written.value.place == UnderTarget(r.target))
  {}

  /** What is stored, for the text of any sequence of characters: the text itself as UTF-8; for Latin-1 a byte for each
      character, that character or a question mark; the five targets; the time. */
  lemma StoredAsWanted(r: Request, data: Clip, announced: nat, cps: seq<Codec.CodePoint>)
    requires !r.target.OtherTarget? && data.text == EncodeAll(cps) && NulFree(cps)
    ensures var p := Answer(AllThere, r, Some(data), announced);
      p.written.Some? && Wanted(r.target, data.text, cps, p.written.value.content)
  {
    CodePointsOfText(cps);
  }

  predicate Wanted(target: Target, text: CString, cps: seq<Codec.CodePoint>, content: Content) {
    match target
    case UTF8_STRING => content == Text(text)
    case TARGETS =>
      && content.TargetList? && |content.targets| == 5
      && TARGETS in content.targets && TIMESTAMP in content.targets && STRING in content.targets
      && TEXT in content.targets && UTF8_STRING in content.targets
    case TIMESTAMP => content == Stamp
    case OtherTarget(_) => false
    case _ =>
      && content.Text? && |content.bytes| == |cps|
      && forall i :: 0 <= i < |cps| ==> content.bytes[i] == if cps[i] <= 0xff then cps[i] else '?' as int
  }

  /** The targets that are offered are those a request succeeds with. */
  lemma OfferedIsServed(r: Request, data: Clip, announced: nat, offered: seq<Target>)
    requires var p := Answer(AllThere, r.(target := TARGETS), Some(data), announced);
      p.written.Some? && p.written.value.content == TargetList(offered)
    ensures r.target in offered <==> Answer(AllThere, r, Some(data), announced).written.Some?
  {}

  /** An event names a property exactly if the client finds something stored under it. */
  lemma EventNamesStored(e: Env, r: Request, data: Option<Clip>, announced: nat)
    ensures var p := Answer(e, r, data, announced);
      p.property != NoAtom <==> p.written.Some? && p.written.value.place == UnderProperty(p.property)
  {}

  /** Without data, exactly a text request is queued, newest first; targets and time are answered at once. */
  lemma AskedWithoutData(d: Desk, e: Env, r: Request)
    requires d.owned && d.cached.None?
    ensures var q := Asked(d, e, r);
      if e.selectionFound && e.windowFound && e.roomLeft
         && (r.target.STRING? || r.target.TEXT? || r.target.UTF8_STRING?)
      then q == d.(pending := [r] + d.pending)
      else
        && q.pending == d.pending && |q.sent| == |d.sent| + 1
        && (q.sent[|d.sent|].written.Some? <==>
              e.selectionFound && e.windowFound && e.changed && (r.target.TARGETS? || r.target.TIMESTAMP?))
  {}

  /** What the client gets: the fields of the event. */
  function EventOf(p: Reply): (nat, Atom, Target, Atom, nat, nat) {
    (p.client, p.selection, p.target, p.property, p.requestor, p.time)
  }

  /** The event tells a client whether its request succeeded, if and only if the request names a property: without one
      (an obsolete client) a success repeats None, although the data was stored under the name of the target. */
  lemma EventTellsSuccess(e: Env, r: Request, data: Option<Clip>, announced: nat)
    ensures EventOf(Answer(e, r, data, announced)) == EventOf(Refusal(r, announced))
       <==> !Convert(e, r, data).Done? || r.property == NoAtom
    ensures Convert(e, r, data).Done? ==> Answer(e, r, data, announced).written.Some?
  {}

  /** Such a request: the text is stored, and the event is that of a refusal. */
  lemma SuccessLooksLikeRefusal(text: CString)
    ensures var r := Request(0, 1, 2, UTF8_STRING, NoAtom, 3, 4);
      var p := Answer(Env(true, true, true, true), r, Some(Clip(0, text)), 0);
      p.written == Some(Write(UnderTarget(UTF8_STRING), Text(text))) && EventOf(p) == EventOf(Refusal(r, 0))
  {
    EventTellsSuccess(Env(true, true, true, true), Request(0, 1, 2, UTF8_STRING, NoAtom, 3, 4), Some(Clip(0, text)), 0);
  }

  /** n turns of the delivery loop, as far as there is something pending. */
  function Turns(d: Desk, e: Env, data: Option<Clip>, n: nat): Desk
    decreases n
  {
    if n == 0 || d.pending == [] then d else Turns(Turn(d, e, data), e, data, n - 1)
  }

  /** With data the loop ends after as many turns as there are requests.  Without, it ends only if the newest request
      cannot be queued again: otherwise a turn puts in what it takes out, and no number of turns changes anything. */
  lemma {:induction false} DeliveryEndsIff(d: Desk, e: Env, data: Option<Clip>)
    requires d.pending != [] && forall r :: r in d.pending ==> IsText(r.target)
    ensures (exists n: nat :: Turns(d, e, data, n).pending == [])
       <==> data.Some? || !e.selectionFound || !e.windowFound || !e.roomLeft
  {
    if data.Some? || !e.selectionFound || !e.windowFound || !e.roomLeft {
      DeliveryEnds(d, e, data);
      assert Turns(d, e, data, |d.pending|).pending == [];
    } else {
      forall n: nat ensures Turns(d, e, data, n) == d {
        NoDataNoProgress(d, e, n);
      }
    }
  }

  lemma {:induction false} DeliveryEnds(d: Desk, e: Env, data: Option<Clip>)
    requires data.Some? || !e.selectionFound || !e.windowFound || !e.roomLeft
    ensures Turns(d, e, data, |d.pending|).pending == []
    decreases |d.pending|
  {
    if d.pending != [] {
      DeliveryEnds(Turn(d, e, data), e, data);
    }
  }

  lemma {:induction false} NoDataNoProgress(d: Desk, e: Env, n: nat)
    requires d.pending != [] && IsText(d.pending[0].target) && e.selectionFound && e.windowFound && e.roomLeft
    ensures Turns(d, e, None, n) == d
    decreases n
  {
    if n > 0 {
      assert ([d.pending[0]] + d.pending)[1..] == d.pending;
      NoDataNoProgress(d, e, n - 1);
    }
  }
}
