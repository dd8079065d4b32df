/** One server session under every interleaving of its strand (which handles packets
    and runs the writer) with the TUN thread that routes packets to its client.

    The strand runs one handler at a time, but each piece of work in a handler is a
    step of its own, so the other thread may act in between: the packet handler of
    src/server/session.cpp sets the auth flag, then passes the gate of `send`, then
    enters its critical section, then possibly closes. */
module Strand {
  import opened Basics
  import opened Protocol
  import opened Session
  import opened Address
  import Window
  import T = Transport
  import P = TransportProofs

  // The two threads that call `send` on a server session.
  const HANDLER: nat := 0
  const TUN: nat := 1

  datatype State = State(
    auth: bool,                    // authenticated_
    granted: bool,                 // some auth request has been accepted
    stuck: bool,                   // an auth request hangs the strand
    todo: seq<Effect>,             // what is left to do of the packet being handled
    tun: Option<Payload>,          // packet of the TUN thread that passed its auth test
    net: T.State,
    sent: seq<Message>,            // messages pushed, in mutex order
    stamps: seq<bool>,             // the auth flag at each push
    frozen: Option<nat>)           // |sent| when the first auth request was rejected

  function Init(): State {
    State(false, false, false, [], None, T.Init(T.ServerSide), [], [], None)
  }

  datatype Action =
    | Packet(event: Event)         // the strand starts to handle a packet
    | Work                         // the next piece of that handler
    | TunCheck(payload: Payload)   // the TUN thread tests the auth flag
    | TunGate                      // ... passes the gate of `send`
    | TunPush                      // ... and enters its critical section
    | Net(act: T.Action)           // everything else in the transport

  predicate Free(s: State) {
    !s.stuck && s.todo == [] && s.net.handler == T.Idle
  }

  /** `send` and `close` are called by the other actions; strand handlers wait their turn. */
  predicate NetAllowed(s: State, act: T.Action) {
    match act
    case SendGate(_, _) => false
    case SendLocked(_) => false
    case Close => false
    case ReadOk(_) => false
    case PutOnWire(_) => true
    case _ => !s.stuck && s.todo == []
  }

  function Record(s: State, m: Message): State {
    s.(sent := s.sent + [m], stamps := s.stamps + [s.auth])
  }

  function DoWork(s: State): State
    requires s.todo != []
  {
    var rest := s.(todo := s.todo[1..]);
    match s.todo[0]
    case Forward(_) => rest
    case Hangup => rest.(net := T.Step(s.net, T.Close))
    case Reply(m) =>
      if HANDLER in s.net.passed then Record(rest, m).(net := T.Step(s.net, T.SendLocked(HANDLER)))
      else if T.GateOpen(s.net) then s.(net := T.Step(s.net, T.SendGate(HANDLER, Encode(m))))
      else rest
  }

  function Begin(c: Config, s: State, e: Event): State {
    match React(c, s.auth, e)
    case Stuck => s.(stuck := true)
    case Done(auth, effects) =>
      s.(auth := auth, granted := s.granted || auth, todo := effects,
         frozen := if e == AuthRequest(Window.Rejects) && s.frozen.None? then Some(|s.sent|) else s.frozen)
  }

  function Step(c: Config, owner: Quad, s: State, a: Action): State {
    match a
    case Packet(e) => if Free(s) && s.net.rd.reading then Begin(c, s, e) else s
    case Work => if s.todo == [] then s else DoWork(s)
    case TunCheck(p) =>
      if s.tun.None? && s.auth && |p| >= 20 && DestinationBytes(p) == owner then s.(tun := Some(p)) else s
    case TunGate =>
      if s.tun.None? || TUN in s.net.passed then s
      else if T.GateOpen(s.net) then s.(net := T.Step(s.net, T.SendGate(TUN, Encode(Message(IP_PACKET, s.tun.value)))))
      else s.(tun := None)
    case TunPush =>
      if s.tun.None? || TUN !in s.net.passed then s
      else Record(s, Message(IP_PACKET, s.tun.value)).(tun := None, net := T.Step(s.net, T.SendLocked(TUN)))
    case Net(act) => if NetAllowed(s, act) then s.(net := T.Step(s.net, act)) else s
  }

  function Run(c: Config, owner: Quad, acts: seq<Action>): State {
    if acts == [] then Init() else Step(c, owner, Run(c, owner, acts[..|acts| - 1]), acts[|acts| - 1])
  }

  /** The auth test of the TUN thread, when it passes. */
  lemma CheckPasses(c: Config, owner: Quad, s: State, p: Payload)
    requires s.tun.None? && s.auth && |p| >= 20 && p[16..20] == owner
    ensures Step(c, owner, s, TunCheck(p)) == s.(tun := Some(p))
  {
  }

  // ---- Whole calls ----

  /** The packet handler run to its end with nobody else moving. */
  function WorkAll(s: State): State
    decreases 2 * |s.todo| + (if HANDLER in s.net.passed then 0 else 1)
  {
    if s.todo == [] then s else WorkAll(DoWork(s))
  }

  /** Between two effects of a packet, on a strand that runs nothing else. */
  predicate AtEffect(s: State) {
    s.net.kind == T.ServerSide && s.net.handler == T.Idle && HANDLER !in s.net.passed
  }

  /** The steps spent on the first effect: two for a reply that passes the gate. */
  function WorkOne(s: State): State
    requires s.todo != []
  {
    if s.todo[0].Reply? && T.GateOpen(s.net) && DoWork(s).todo != [] then DoWork(DoWork(s)) else DoWork(s)
  }

  lemma WorkOneIsApplyOne(s: State)
    requires AtEffect(s) && s.todo != []
    ensures var e := WorkOne(s);
            && e.net == ApplyOne(s.net, s.todo[0]) && e.todo == s.todo[1..] && e.auth == s.auth && AtEffect(e)
  {
    match s.todo[0]
    case Forward(_) =>
    case Hangup =>
    case Reply(m) =>
      if T.GateOpen(s.net) {
        T.SendCallIsARun(s.net, HANDLER, Encode(m));
      }
  }

  /** Uninterrupted, the steps of a handler are the whole call of `HandlePacket`. */
  lemma {:induction false} HandlerIsHandlePacket(s: State)
    requires AtEffect(s)
    ensures WorkAll(s).net == Apply(s.net, s.todo) && WorkAll(s).auth == s.auth
    decreases |s.todo|
  {
    if s.todo != [] {
      ApplyFirst(s.net, s.todo);
      WorkOneIsApplyOne(s);
      HandlerIsHandlePacket(WorkOne(s));
      WorkAllSkips(s);
    }
  }

  lemma WorkAllSkips(s: State)
    requires s.todo != []
    ensures WorkAll(s) == WorkAll(WorkOne(s))
  {
  }

  /** Uninterrupted, the steps of the TUN thread are the whole call of `SendIpPacket`. */
  lemma TunStepsAreSendIpPacket(c: Config, owner: Quad, s: State, p: Payload)
    requires s.tun.None? && s.auth && TUN !in s.net.passed && |p| >= 20 && p[16..20] == owner
    ensures var e := Step(c, owner, Step(c, owner, Step(c, owner, s, TunCheck(p)), TunGate), TunPush);
            e.net == Offered(s.net, p) && e.tun.None?
  {
    T.SendCallIsARun(s.net, TUN, Encode(Message(IP_PACKET, p)));
  }

  // ---- Invariants ----

  /** Only messages built here are in the transport, and no reply is an IP packet. */
  ghost predicate FramesInv(s: State) {
    && s.net.log.accepted == EncodeAll(s.sent)
    && |s.stamps| == |s.sent|
    && s.net.passed.Keys <= {HANDLER, TUN}
    && (HANDLER in s.net.passed ==>
          s.todo != [] && s.todo[0].Reply? && s.net.passed[HANDLER] == Encode(s.todo[0].message))
    && (TUN in s.net.passed ==> s.tun.Some? && s.net.passed[TUN] == Encode(Message(IP_PACKET, s.tun.value)))
    && (forall i :: 0 <= i < |s.todo| && s.todo[i].Reply? ==> s.todo[i].message.kind != IP_PACKET)
  }

  predicate Addressed(owner: Quad, p: Payload) {
    |p| >= 20 && DestinationBytes(p) == owner
  }

  ghost predicate AddressInv(owner: Quad, s: State) {
    && (s.auth ==> s.granted)
    && (s.tun.Some? ==> s.granted && Addressed(owner, s.tun.value))
    && (forall i :: 0 <= i < |s.sent| && s.sent[i].kind == IP_PACKET ==>
          s.granted && Addressed(owner, s.sent[i].payload))
  }

  /** Messages that can still reach the wire. */
  function Writable(s: State): nat {
    if s.frozen.Some? then s.frozen.value else |s.sent|
  }

  ghost predicate FreezeInv(s: State) {
    && s.net.kind == T.ServerSide
    && (s.net.rd.reading || s.todo != [] ==> s.net.live)
    && (s.todo != [] ==> s.net.handler == T.Idle)
    && |s.net.log.started| <= Writable(s) <= |s.sent|
    && (s.frozen.None? ==> s.auth == s.granted)
    && (s.frozen.Some? ==>
          s.net.live && s.net.handler == T.Idle
          && (T.Shut(s.net) || (s.todo != [] && s.todo[|s.todo| - 1] == Hangup)))
  }

  ghost predicate StampInv(s: State) {
    |s.stamps| == |s.sent| && Writable(s) <= |s.sent|
    && forall i :: 0 <= i < Writable(s) && s.sent[i].kind == IP_PACKET ==> s.stamps[i]
  }

  ghost predicate Inv(owner: Quad, s: State) {
    P.WriterInv(s.net) && FramesInv(s) && AddressInv(owner, s) && FreezeInv(s) && StampInv(s)
  }

  // ---- Preservation, one kind of action at a time ----

  lemma NetStepFrames(s: State, act: T.Action)
    requires FramesInv(s) && NetAllowed(s, act)
    ensures FramesInv(s.(net := T.Step(s.net, act)))
  {
    P.OtherActionsSendNothing(s.net, act);
  }

  lemma QuietActions(s: T.State, act: T.Action)
    requires act.PutOnWire? || (s.handler == T.Idle && (act.Lock? || act.StartWrite?))
    ensures T.Step(s, act).log.started == s.log.started && T.Step(s, act).handler == s.handler
    ensures T.Shut(T.Step(s, act)) == T.Shut(s)
  {
  }

  lemma NetStepFreeze(s: State, act: T.Action)
    requires P.WriterInv(s.net) && FramesInv(s) && FreezeInv(s) && NetAllowed(s, act)
    ensures FreezeInv(s.(net := T.Step(s.net, act)))
  {
    P.StepFrame(s.net, act);
    P.WriterStep(s.net, act);
    P.OtherActionsSendNothing(s.net, act);
    if s.todo != [] {
      QuietActions(s.net, act);
    } else if s.frozen.Some? {
      P.ShutStep(s.net, act);
    }
  }

  lemma NetStep(owner: Quad, s: State, act: T.Action)
    requires Inv(owner, s) && NetAllowed(s, act)
    ensures Inv(owner, s.(net := T.Step(s.net, act)))
  {
    P.WriterStep(s.net, act);
    NetStepFrames(s, act);
    NetStepFreeze(s, act);
  }

  lemma SendStepFacts(s: T.State, a: T.Action)
    requires a.SendGate? || a.SendLocked?
    ensures var e := T.Step(s, a);
            && e.kind == s.kind && e.live == s.live && e.rd == s.rd && e.handler == s.handler
            && e.log.started == s.log.started && T.Shut(e) == T.Shut(s)
  {
  }

  /** A push by thread `t`: its message, and the session without its errand. */
  ghost predicate IsPush(s: State, t: nat, m: Message, rest: State) {
    && t in s.net.passed && s.net.passed[t] == Encode(m)
    && (t == HANDLER ==> s.todo != [] && s.todo[0] == Reply(m) && rest == s.(todo := s.todo[1..]))
    && (t == TUN ==> s.tun == Some(m.payload) && m.kind == IP_PACKET && rest == s.(tun := None))
  }

  function Pushed(s: State, t: nat, m: Message, rest: State): State {
    Record(rest, m).(net := T.Step(s.net, T.SendLocked(t)))
  }

  lemma PushFrames(s: State, t: nat, m: Message, rest: State)
    requires FramesInv(s) && IsPush(s, t, m, rest)
    ensures FramesInv(Pushed(s, t, m, rest))
  {
  }

  lemma PushFreeze(s: State, t: nat, m: Message, rest: State)
    requires FramesInv(s) && FreezeInv(s) && IsPush(s, t, m, rest)
    ensures FreezeInv(Pushed(s, t, m, rest))
  {
  }

  lemma PushAddress(owner: Quad, s: State, t: nat, m: Message, rest: State)
    requires FramesInv(s) && AddressInv(owner, s) && IsPush(s, t, m, rest)
    ensures AddressInv(owner, Pushed(s, t, m, rest))
  {
  }

  lemma PushStamp(owner: Quad, s: State, t: nat, m: Message, rest: State)
    requires FramesInv(s) && AddressInv(owner, s) && StampInv(s) && IsPush(s, t, m, rest)
    requires s.frozen.None? ==> s.auth == s.granted
    ensures StampInv(Pushed(s, t, m, rest))
  {
  }

  lemma PushStep(owner: Quad, s: State, t: nat, m: Message, rest: State)
    requires Inv(owner, s) && IsPush(s, t, m, rest)
    ensures Inv(owner, Pushed(s, t, m, rest))
  {
    P.WriterStep(s.net, T.SendLocked(t));
    PushFrames(s, t, m, rest);
    PushFreeze(s, t, m, rest);
    PushAddress(owner, s, t, m, rest);
    PushStamp(owner, s, t, m, rest);
  }

  lemma GateStep(owner: Quad, s: State, t: nat, m: Message)
    requires Inv(owner, s) && t !in s.net.passed
    requires t == HANDLER || t == TUN
    requires t == HANDLER ==> s.todo != [] && s.todo[0] == Reply(m)
    requires t == TUN ==> s.tun == Some(m.payload) && m.kind == IP_PACKET
    ensures Inv(owner, s.(net := T.Step(s.net, T.SendGate(t, Encode(m)))))
  {
    P.WriterStep(s.net, T.SendGate(t, Encode(m)));
    SendStepFacts(s.net, T.SendGate(t, Encode(m)));
  }

  lemma HangupStep(owner: Quad, s: State)
    requires Inv(owner, s) && s.todo != [] && s.todo[0] == Hangup
    ensures Inv(owner, s.(todo := s.todo[1..], net := T.Step(s.net, T.Close)))
  {
    P.WriterStep(s.net, T.Close);
    P.StepFrame(s.net, T.Close);
    P.OtherActionsSendNothing(s.net, T.Close);
  }

  lemma DropStep(owner: Quad, s: State)
    requires Inv(owner, s) && s.todo != [] && s.todo[0] != Hangup && HANDLER !in s.net.passed
    ensures Inv(owner, s.(todo := s.todo[1..]))
  {
  }

  lemma WorkStep(owner: Quad, s: State)
    requires Inv(owner, s) && s.todo != []
    ensures Inv(owner, DoWork(s))
  {
    match s.todo[0]
    case Forward(_) => DropStep(owner, s);
    case Hangup => HangupStep(owner, s);
    case Reply(m) =>
      if HANDLER in s.net.passed {
        PushStep(owner, s, HANDLER, m, s.(todo := s.todo[1..]));
      } else if T.GateOpen(s.net) {
        GateStep(owner, s, HANDLER, m);
      } else {
        DropStep(owner, s);
      }
  }

  lemma BeginFreeze(c: Config, s: State, e: Event)
    requires P.WriterInv(s.net) && FramesInv(s) && FreezeInv(s) && Free(s) && s.net.rd.reading
    ensures FreezeInv(Begin(c, s, e))
  {
  }

  lemma BeginStamp(c: Config, s: State, e: Event)
    requires StampInv(s)
    ensures StampInv(Begin(c, s, e))
  {
  }

  lemma BeginStep(c: Config, owner: Quad, s: State, e: Event)
    requires Inv(owner, s) && Free(s) && s.net.rd.reading
    ensures Inv(owner, Begin(c, s, e))
  {
    BeginFreeze(c, s, e);
    BeginStamp(c, s, e);
  }

  lemma StepInv(c: Config, owner: Quad, s: State, a: Action)
    requires Inv(owner, s)
    ensures Inv(owner, Step(c, owner, s, a))
  {
    match a
    case Packet(e) =>
      if Free(s) && s.net.rd.reading {
        BeginStep(c, owner, s, e);
      }
    case Work =>
      if s.todo != [] {
        WorkStep(owner, s);
      }
    case TunCheck(_) =>
    case TunGate =>
      if s.tun.Some? && TUN !in s.net.passed && T.GateOpen(s.net) {
        GateStep(owner, s, TUN, Message(IP_PACKET, s.tun.value));
      }
    case TunPush =>
      if s.tun.Some? && TUN in s.net.passed {
        PushStep(owner, s, TUN, Message(IP_PACKET, s.tun.value), s.(tun := None));
      }
    case Net(act) =>
      if NetAllowed(s, act) {
        NetStep(owner, s, act);
      }
  }

  lemma {:induction false} RunInv(c: Config, owner: Quad, acts: seq<Action>)
    ensures Inv(owner, Run(c, owner, acts))
  {
    if acts != [] {
      RunInv(c, owner, acts[..|acts| - 1]);
      StepInv(c, owner, Run(c, owner, acts[..|acts| - 1]), acts[|acts| - 1]);
    }
  }

  // ---- What follows for every run ----

  /** Every message on the wire to a client is one that was pushed, in order, and an IP
      packet among them is addressed to that client and was queued while the session was
      authenticated, although the flag is tested long before the packet is queued. */
  lemma WrittenPacketsAreLegitimate(c: Config, owner: Quad, acts: seq<Action>)
    ensures var s := Run(c, owner, acts);
            && |s.net.log.wire| <= |s.sent| == |s.stamps|
            && forall i :: 0 <= i < |s.net.log.wire| ==>
                 && s.net.log.wire[i] == Encode(s.sent[i])
                 && (s.sent[i].kind == IP_PACKET ==>
                       s.stamps[i] && |s.sent[i].payload| >= 20 && s.sent[i].payload[16..20] == owner)
  {
    RunInv(c, owner, acts);
    var s := Run(c, owner, acts);
    assert s.net.log.wire <= s.net.log.accepted;
    assert |s.net.log.wire| <= |s.net.log.started| <= Writable(s);
  }

  lemma FrozenStep(c: Config, owner: Quad, s: State, a: Action)
    requires s.frozen.Some?
    ensures Step(c, owner, s, a).frozen == s.frozen
  {
  }

  /** The first rejection ends the conversation: neither the rejection reply nor anything
      queued after it is ever handed to the stream, in any continuation. */
  lemma {:induction false} RejectionIsNeverWritten(c: Config, owner: Quad, acts: seq<Action>, n: nat)
    requires n <= |acts| && Run(c, owner, acts[..n]).frozen.Some?
    ensures Run(c, owner, acts).frozen == Run(c, owner, acts[..n]).frozen
    ensures |Run(c, owner, acts).net.log.started| <= Run(c, owner, acts[..n]).frozen.value
  {
    RunInv(c, owner, acts);
    if n == |acts| {
      assert acts[..n] == acts;
    } else {
      assert acts[..|acts| - 1][..n] == acts[..n];
      RejectionIsNeverWritten(c, owner, acts[..|acts| - 1], n);
      FrozenStep(c, owner, Run(c, owner, acts[..|acts| - 1]), acts[|acts| - 1]);
    }
  }

  lemma Then(c: Config, owner: Quad, before: seq<Action>, a: Action) returns (acts: seq<Action>)
    ensures acts == before + [a] && Run(c, owner, acts) == Step(c, owner, Run(c, owner, before), a)
  {
    acts := before + [a];
    assert acts[..|before|] == before;
  }

  /** And there are such rejections: the reply to a request that is refused at once is
      queued, and is what stays unwritten. */
  lemma RejectionIsQueued(c: Config, owner: Quad) returns (acts: seq<Action>)
    ensures var s := Run(c, owner, acts);
            && s.frozen == Some(0) && s.todo == [] && T.Shut(s.net)
            && s.sent == [Message(AUTH_RESPONSE, c.dump(Denied))] && s.net.queue == EncodeAll(s.sent)
  {
    acts := Then(c, owner, [], Net(T.Open));
    acts := Then(c, owner, acts, Packet(AuthRequest(Window.Rejects)));
    var denial := Message(AUTH_RESPONSE, c.dump(Denied));
    assert Run(c, owner, acts).todo == [Reply(denial), Hangup];
    acts := Then(c, owner, acts, Work);
    assert HANDLER in Run(c, owner, acts).net.passed;
    acts := Then(c, owner, acts, Work);
    assert Run(c, owner, acts).todo == [Hangup] && Run(c, owner, acts).sent == [denial];
    acts := Then(c, owner, acts, Work);
  }

  /** An open session whose TUN thread has tested the flag for packet `p`. */
  ghost predicate HasChecked(s: State, p: Payload) {
    && s.tun == Some(p) && !s.stuck && |s.sent| == |s.stamps| && TUN !in s.net.passed
    && s.net.kind == T.ServerSide && s.net.connected && s.net.rd.reading && s.net.handler == T.Idle
  }

  lemma CheckedRun(c: Config, owner: Quad, p: Payload) returns (acts: seq<Action>)
    requires Addressed(owner, p)
    ensures var s := Run(c, owner, acts);
            HasChecked(s, p) && s.auth && s.todo == AuthEffects(c, true) && s.net.passed == map[]
  {
    acts := Then(c, owner, [], Net(T.Open));
    acts := Then(c, owner, acts, Packet(AuthRequest(Window.Accepts)));
    acts := Then(c, owner, acts, TunCheck(p));
  }

  /** The two steps that send the positive answer. */
  lemma AnswerSent(c: Config, owner: Quad, s: State, p: Payload)
    requires HasChecked(s, p) && s.auth && s.todo == AuthEffects(c, true) && s.net.passed == map[]
    ensures var e := Step(c, owner, Step(c, owner, s, Work), Work);
            HasChecked(e, p) && e.auth && e.todo == [] && e.net.failed == s.net.failed
  {
    var first := Step(c, owner, s, Work);
    assert HasChecked(first, p) && HANDLER in first.net.passed && first.todo == s.todo;
    assert first.auth && first.net.failed == s.net.failed;
  }

  lemma RepliedRun(c: Config, owner: Quad, p: Payload) returns (acts: seq<Action>)
    requires Addressed(owner, p)
    ensures var s := Run(c, owner, acts); HasChecked(s, p) && s.todo == []
  {
    acts := CheckedRun(c, owner, p);
    AnswerSent(c, owner, Run(c, owner, acts), p);
    acts := Then(c, owner, acts, Work);
    acts := Then(c, owner, acts, Work);
  }

  // ---- What is queued does get written ----

  function Nets(writes: seq<T.Action>): seq<Action> {
    seq(|writes|, i requires 0 <= i < |writes| => Net(writes[i]))
  }

  lemma NetStepIs(c: Config, owner: Quad, s: State, act: T.Action)
    requires P.IsWriter(act) && !s.stuck && s.todo == []
    ensures Step(c, owner, s, Net(act)) == s.(net := T.Step(s.net, act))
  {
  }

  lemma LastWrite(s: T.State, writes: seq<T.Action>, act: T.Action)
    ensures T.Run(s, writes + [act]) == T.Step(T.Run(s, writes), act)
  {
    assert (writes + [act])[..|writes|] == writes;
  }

  lemma NetsOfMore(acts: seq<Action>, writes: seq<T.Action>, act: T.Action)
    ensures acts + Nets(writes) + [Net(act)] == acts + Nets(writes + [act])
  {
    assert Nets(writes) + [Net(act)] == Nets(writes + [act]);
  }

  lemma {:induction false} NetRun(c: Config, owner: Quad, acts: seq<Action>, writes: seq<T.Action>)
    requires forall i :: 0 <= i < |writes| ==> P.IsWriter(writes[i])
    requires !Run(c, owner, acts).stuck && Run(c, owner, acts).todo == []
    ensures Run(c, owner, acts + Nets(writes)) == Run(c, owner, acts).(net := T.Run(Run(c, owner, acts).net, writes))
  {
    if writes == [] {
      assert acts + Nets(writes) == acts;
    } else {
      var before, last := writes[..|writes| - 1], writes[|writes| - 1];
      NetRun(c, owner, acts, before);
      var longer := Then(c, owner, acts + Nets(before), Net(last));
      NetStepIs(c, owner, Run(c, owner, acts + Nets(before)), last);
      LastWrite(Run(c, owner, acts).net, before, last);
      NetsOfMore(acts, before, last);
      assert before + [last] == writes;
    }
  }

  /** From every state with an open, healthy transport and no packet being handled, the strand
      can put everything that was pushed on the wire, and change nothing else. */
  lemma WritesEverything(c: Config, owner: Quad, acts: seq<Action>) returns (writes: seq<T.Action>)
    requires var s := Run(c, owner, acts); !s.stuck && s.todo == [] && s.net.connected && !s.net.failed
    ensures var (s, e) := (Run(c, owner, acts), Run(c, owner, acts + Nets(writes)));
            && e == s.(net := e.net) && e.net.log.wire == EncodeAll(s.sent)
            && e.net.rd == s.net.rd && e.net.connected
    ensures forall i :: 0 <= i < |writes| ==> P.IsWriter(writes[i])
  {
    RunInv(c, owner, acts);
    writes := P.DrainSchedule(Run(c, owner, acts).net);
    NetRun(c, owner, acts, writes);
    P.WritersKeepRest(Run(c, owner, acts).net, writes);
    P.DrainProgress(Run(c, owner, acts).net, writes);
  }

  /** `WrittenPacketsAreLegitimate` cannot be said of the queued packets: one can enter the
      queue of a session that is no longer authenticated, between the change of the flag
      and the closing of the gate. */
  lemma QueuedAfterRevocation(c: Config, owner: Quad, p: Payload) returns (acts: seq<Action>)
    requires Addressed(owner, p)
    ensures var s := Run(c, owner, acts);
            |s.sent| == |s.stamps| > 0 && s.sent[|s.sent| - 1] == Message(IP_PACKET, p) && !s.stamps[|s.sent| - 1]
  {
    acts := RepliedRun(c, owner, p);
    acts := Then(c, owner, acts, Packet(AuthRequest(Window.Rejects)));
    assert HasChecked(Run(c, owner, acts), p) && !Run(c, owner, acts).auth;
    acts := Then(c, owner, acts, TunGate);
    acts := Then(c, owner, acts, TunPush);
  }

  // ---- Exactly when a queued packet finds the flag still set ----

  function RunFrom(c: Config, owner: Quad, s: State, acts: seq<Action>): State {
    if acts == [] then s else Step(c, owner, RunFrom(c, owner, s, acts[..|acts| - 1]), acts[|acts| - 1])
  }

  /** The strand handles an auth request in this state, and it does not hang. */
  predicate HandlesAuth(s: State, a: Action) {
    a.Packet? && a.event.AuthRequest? && a.event.verdict != Window.Hangs && Free(s) && s.net.rd.reading
  }

  /** The outcome of the last auth request handled during `acts`, if there was one. */
  function LastOutcome(c: Config, owner: Quad, s: State, acts: seq<Action>): Option<bool> {
    if acts == [] then None
    else
      var before, last := acts[..|acts| - 1], acts[|acts| - 1];
      if HandlesAuth(RunFrom(c, owner, s, before), last) then Some(last.event.verdict == Window.Accepts)
      else LastOutcome(c, owner, s, before)
  }

  lemma AuthStep(c: Config, owner: Quad, s: State, a: Action)
    ensures Step(c, owner, s, a).auth == if HandlesAuth(s, a) then a.event.verdict == Window.Accepts else s.auth
  {
  }

  lemma {:induction false} AuthAfter(c: Config, owner: Quad, s: State, acts: seq<Action>)
    ensures RunFrom(c, owner, s, acts).auth ==
              match LastOutcome(c, owner, s, acts) case Some(ok) => ok case None => s.auth
  {
    if acts != [] {
      var before := acts[..|acts| - 1];
      AuthAfter(c, owner, s, before);
      AuthStep(c, owner, RunFrom(c, owner, s, before), acts[|acts| - 1]);
    }
  }

  /** A packet that passed the auth test in state `s` and is queued after `acts` is queued
      while the session is authenticated exactly if the strand rejected no auth request in
      between, or accepted another one after it. */
  lemma QueuedWhileAuthenticatedIff(c: Config, owner: Quad, s: State, acts: seq<Action>)
    requires s.auth
    requires var ready := RunFrom(c, owner, s, acts);
             ready.tun.Some? && TUN in ready.net.passed && |ready.sent| == |ready.stamps|
    ensures var ready := RunFrom(c, owner, s, acts);
            var queued := Step(c, owner, ready, TunPush);
            && queued.sent == ready.sent + [Message(IP_PACKET, ready.tun.value)]
            && |queued.stamps| == |queued.sent|
            && (queued.stamps[|queued.sent| - 1] <==> LastOutcome(c, owner, s, acts) != Some(false))
  {
    AuthAfter(c, owner, s, acts);
  }
}
