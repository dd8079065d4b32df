/** The way back: from the client's TUN device to the server's. Any threads of the client send
    any messages through its transport under every interleaving of `Link`; the session reads
    its wire between all the other steps of `Strand`. */
module Uplink {
  import opened Basics
  import opened Protocol
  import opened Order
  import opened Address
  import opened Session
  import T = Transport
  import P = TransportProofs
  import L = Link
  import S = Strand
  import Window

  datatype State = State(
    link: L.Link,                // the client's transport; the reading half is `read`
    session: S.State,
    read: nat,                   // messages the session has read
    forwarded: seq<Payload>,     // packets the server wrote to its TUN
    refused: nat)                // IP packets that met an unauthenticated session

  function Init(): State {
    State(L.Init(T.ClientSide, T.ServerSide), S.Init(), 0, [], 0)
  }

  datatype Action =
    | Client(send: L.Action)     // a step of the client's transport or of a thread that sends
    | Server(step: S.Action)     // a step of the session other than taking up a packet
    | ServerReads(now: u64)      // the session reads the next message

  predicate CanRead(s: State) {
    s.read < |s.link.near.log.wire| && S.Free(s.session) && s.session.net.rd.reading
  }

  function Heard(c: Config, s: State, e: Event): State {
    match React(c, s.session.auth, e)
    case Stuck => s
    case Done(_, effects) =>
      s.(forwarded := s.forwarded + Forwards(effects),
         refused := s.refused + (if e.IpPacket? && !s.session.auth then 1 else 0))
  }

  ghost function ReadStep(c: Config, owner: Quad, s: State, now: u64): State {
    if !CanRead(s) then s
    else match Dispatch(s.link.near.log.wire[s.read])
      case None => s.(read := s.read + 1)
      case Some(m) =>
        var e := EventOf(c, m, now);
        Heard(c, s, e).(read := s.read + 1, session := S.Step(c, owner, s.session, S.Packet(e)))
  }

  ghost function Step(c: Config, owner: Quad, s: State, a: Action): State {
    match a
    case Client(send) => if send.Far? || send.Deliver? then s else s.(link := L.Step(s.link, send))
    case Server(step) => if step.Packet? then s else s.(session := S.Step(c, owner, s.session, step))
    case ServerReads(now) => ReadStep(c, owner, s, now)
  }

  ghost function Run(c: Config, owner: Quad, acts: seq<Action>): State {
    if acts == [] then Init() else Step(c, owner, Run(c, owner, acts[..|acts| - 1]), acts[|acts| - 1])
  }

  ghost predicate Accounted(sent: seq<Message>, read: nat, forwarded: seq<Payload>, refused: nat) {
    && read <= |sent|
    && InOrder(forwarded, IpPayloads(sent[..read]))
    && |IpPayloads(sent[..read])| == |forwarded| + refused
  }

  ghost predicate Inv(s: State) {
    L.Inv(s.link) && s.read <= |s.link.near.log.wire| && Accounted(s.link.sent, s.read, s.forwarded, s.refused)
  }

  /** The wire holds the messages that were accepted, in order. */
  lemma WireIsSent(l: L.Link, n: nat)
    requires L.Inv(l) && n < |l.near.log.wire|
    ensures n < |l.sent| && Dispatch(l.near.log.wire[n]) == Some(l.sent[n])
  {
    assert l.near.log.wire <= l.near.log.accepted;
    DispatchOfEncode(l.sent[n], []);
  }

  lemma ClientStep(l: L.Link, a: L.Action)
    requires L.Inv(l) && !a.Far? && !a.Deliver?
    ensures var e := L.Step(l, a); L.Inv(e) && l.sent <= e.sent && l.near.log.wire <= e.near.log.wire
  {
    L.StepInv(l, a);
    match a
    case Send(t, m) => P.CallsKeepWire(l.near, T.SendGate(t, Encode(m)));
    case Commit(t) => P.CallsKeepWire(l.near, T.SendLocked(t));
    case Near(act) =>
      if !act.SendGate? && !act.SendLocked? {
        P.OtherActionsSendNothing(l.near, act);
      }
  }

  /** What one message does to the accounts. */
  lemma HeardStep(c: Config, s: State, m: Message, now: u64)
    ensures var e := Heard(c, s, EventOf(c, m, now));
            && e.refused == s.refused + (if m.kind == IP_PACKET && !s.session.auth then 1 else 0)
            && e.forwarded == if m.kind == IP_PACKET && s.session.auth then s.forwarded + [m.payload] else s.forwarded
  {
    var event := EventOf(c, m, now);
    if React(c, s.session.auth, event).Done? {
      ReactFilters(c, s.session.auth, event);
    }
    assert s.forwarded + [] == s.forwarded;
  }

  lemma MoreRead(sent: seq<Message>, read: nat, forwarded: seq<Payload>, refused: nat, auth: bool)
    requires Accounted(sent, read, forwarded, refused) && read < |sent|
    ensures var m := sent[read];
            Accounted(sent, read + 1,
                      if m.kind == IP_PACKET && auth then forwarded + [m.payload] else forwarded,
                      refused + (if m.kind == IP_PACKET && !auth then 1 else 0))
  {
    assert sent[..read + 1] == sent[..read] + [sent[read]];
    IpPayloadsAppend(sent[..read], sent[read]);
    InOrderAppend(forwarded, IpPayloads(sent[..read]), sent[read].payload);
  }

  lemma ReadResult(c: Config, owner: Quad, s: State, m: Message, now: u64)
    requires CanRead(s) && Dispatch(s.link.near.log.wire[s.read]) == Some(m)
    ensures var e := ReadStep(c, owner, s, now);
            var heard := Heard(c, s, EventOf(c, m, now));
            && e.link == s.link && e.read == s.read + 1
            && e.forwarded == heard.forwarded && e.refused == heard.refused
  {
  }

  lemma ReadInv(c: Config, owner: Quad, s: State, now: u64)
    requires Inv(s)
    ensures Inv(ReadStep(c, owner, s, now))
  {
    if CanRead(s) {
      WireIsSent(s.link, s.read);
      ReadResult(c, owner, s, s.link.sent[s.read], now);
      HeardStep(c, s, s.link.sent[s.read], now);
      MoreRead(s.link.sent, s.read, s.forwarded, s.refused, s.session.auth);
    }
  }

  lemma StepInv(c: Config, owner: Quad, s: State, a: Action)
    requires Inv(s)
    ensures Inv(Step(c, owner, s, a))
  {
    match a
    case Client(send) =>
      if !send.Far? && !send.Deliver? {
        ClientStep(s.link, send);
        assert L.Step(s.link, send).sent[..s.read] == s.link.sent[..s.read];
      }
    case Server(_) =>
    case ServerReads(now) => ReadInv(c, owner, s, now);
  }

  lemma {:induction false} RunInv(c: Config, owner: Quad, acts: seq<Action>)
    ensures Inv(Run(c, owner, acts))
  {
    if acts == [] {
      P.InitInv(T.ClientSide);
      P.InitInv(T.ServerSide);
    } else {
      RunInv(c, owner, acts[..|acts| - 1]);
      StepInv(c, owner, Run(c, owner, acts[..|acts| - 1]), acts[|acts| - 1]);
    }
  }

  /** In every run, what the server writes to its TUN is, in order, part of the packets that
      the client's threads sent, and each packet is accounted for: written, or met an
      unauthenticated session, or not read yet. Everything is written exactly when all of it
      has been read and none met an unauthenticated session. */
  lemma Delivery(c: Config, owner: Quad, acts: seq<Action>)
    ensures var s := Run(c, owner, acts);
            && s.read <= |s.link.sent|
            && InOrder(s.forwarded, IpPayloads(s.link.sent))
            && |IpPayloads(s.link.sent)| == |s.forwarded| + s.refused + |IpPayloads(s.link.sent[s.read..])|
            && (s.forwarded == IpPayloads(s.link.sent) <==> IpPayloads(s.link.sent[s.read..]) == [] && s.refused == 0)
  {
    RunInv(c, owner, acts);
    var s := Run(c, owner, acts);
    var packets := IpPayloads(s.link.sent);
    assert packets + [] == packets;
    InOrderPrefix(packets, []);
    Parts(s.link.sent, s.read, [], packets, s.forwarded);
    InOrderSize(s.forwarded, packets);
  }

  // ---- Packets do get through ----

  lemma Then(c: Config, owner: Quad, before: seq<Action>, a: Action) returns (acts: seq<Action>)
    ensures acts == before + [a] && Run(c, owner, acts) == Step(c, owner, Run(c, owner, before), a)
  {
    acts := before + [a];
    assert acts[..|before|] == before;
  }

  function Sends(steps: seq<L.Action>): seq<Action> {
    seq(|steps|, i requires 0 <= i < |steps| => Client(steps[i]))
  }

  lemma LastLinkStep(l: L.Link, steps: seq<L.Action>, a: L.Action)
    ensures L.Run(l, steps + [a]) == L.Step(L.Run(l, steps), a)
  {
    assert (steps + [a])[..|steps|] == steps;
  }

  lemma SendsOfMore(acts: seq<Action>, steps: seq<L.Action>, a: L.Action)
    ensures acts + Sends(steps) + [Client(a)] == acts + Sends(steps + [a])
  {
    assert Sends(steps) + [Client(a)] == Sends(steps + [a]);
  }

  lemma ClientStepIs(c: Config, owner: Quad, s: State, a: L.Action)
    requires !a.Far? && !a.Deliver?
    ensures Step(c, owner, s, Client(a)) == s.(link := L.Step(s.link, a))
  {
  }

  /** The client's side moves alone. */
  lemma {:induction false} ClientAlone(c: Config, owner: Quad, acts: seq<Action>, steps: seq<L.Action>)
    requires forall i :: 0 <= i < |steps| ==> !steps[i].Far? && !steps[i].Deliver?
    ensures var s := Run(c, owner, acts); Run(c, owner, acts + Sends(steps)) == s.(link := L.Run(s.link, steps))
  {
    if steps == [] {
      assert acts + Sends(steps) == acts;
    } else {
      var before, last := steps[..|steps| - 1], steps[|steps| - 1];
      ClientAlone(c, owner, acts, before);
      var longer := Then(c, owner, acts + Sends(before), Client(last));
      ClientStepIs(c, owner, Run(c, owner, acts + Sends(before)), last);
      LastLinkStep(Run(c, owner, acts).link, before, last);
      SendsOfMore(acts, before, last);
      assert before + [last] == steps;
    }
  }

  /** While the client's gate is open a message can be sent and put on the wire, with all
      that was sent before. */
  lemma CanSend(c: Config, owner: Quad, acts: seq<Action>, m: Message) returns (more: seq<Action>)
    requires var l := Run(c, owner, acts).link; !l.near.closing && !l.near.failed && l.near.passed == map[]
    ensures var (s, e) := (Run(c, owner, acts), Run(c, owner, more));
            && e == s.(link := e.link)
            && e.link.sent == s.link.sent + [m] && e.link.near.log.wire == EncodeAll(e.link.sent)
            && !e.link.near.closing && !e.link.near.failed && e.link.near.passed == map[]
  {
    RunInv(c, owner, acts);
    ClientKind(c, owner, acts);
    var steps := L.SendAndWrite(Run(c, owner, acts).link, m);
    more := acts + Sends(steps);
    ClientAlone(c, owner, acts, steps);
  }

  lemma {:induction false} ClientKind(c: Config, owner: Quad, acts: seq<Action>)
    ensures Run(c, owner, acts).link.near.kind == T.ClientSide
  {
    if acts != [] {
      ClientKind(c, owner, acts[..|acts| - 1]);
      KindStep(c, owner, Run(c, owner, acts[..|acts| - 1]), acts[|acts| - 1]);
    }
  }

  lemma KindStep(c: Config, owner: Quad, s: State, a: Action)
    ensures Step(c, owner, s, a).link.near.kind == s.link.near.kind
  {
    match a
    case Client(send) => L.KindsStay(s.link, send);
    case Server(_) =>
    case ServerReads(_) =>
  }

  /** The session is free to take up a packet. */
  ghost predicate Ready(s: S.State, auth: bool) {
    && S.Free(s) && s.net.rd.reading && s.auth == auth
    && s.net.kind == T.ServerSide && s.net.connected && s.net.passed == map[]
  }

  lemma Opened(c: Config, owner: Quad) returns (acts: seq<Action>)
    ensures var s := Run(c, owner, acts); s == Init().(session := s.session) && Ready(s.session, false)
  {
    acts := Then(c, owner, [], Server(S.Net(T.Open)));
  }

  /** The session reads a request that it accepts, and answers it. */
  lemma Admitted(c: Config, owner: Quad, acts: seq<Action>, hello: Message, now: u64) returns (more: seq<Action>)
    requires hello.kind == AUTH_REQUEST && Decide(c, c.parse(hello.payload), now) == Window.Accepts
    requires var s := Run(c, owner, acts);
             Ready(s.session, false) && s.read < |s.link.near.log.wire| && s.link.near.log.wire[s.read] == Encode(hello)
    ensures var (s, e) := (Run(c, owner, acts), Run(c, owner, more));
            e == s.(read := s.read + 1, session := e.session) && Ready(e.session, true)
  {
    var s := Run(c, owner, acts);
    DispatchOfEncode(hello, []);
    HeardStep(c, s, hello, now);
    more := Then(c, owner, acts, ServerReads(now));
    assert Run(c, owner, more) == s.(read := s.read + 1, session := Run(c, owner, more).session);
    more := Answered(c, owner, more);
  }

  lemma Answered(c: Config, owner: Quad, acts: seq<Action>) returns (more: seq<Action>)
    requires var s := Run(c, owner, acts).session;
             s.todo == AuthEffects(c, true) && Ready(s.(todo := []), true)
    ensures var (s, e) := (Run(c, owner, acts), Run(c, owner, more));
            e == s.(session := e.session) && Ready(e.session, true)
  {
    more := Then(c, owner, acts, Server(S.Work));
    assert S.HANDLER in Run(c, owner, more).session.net.passed;
    more := Then(c, owner, more, Server(S.Work));
  }

  /** For every accepted request and every packet there is a run in which the packet that
      follows the request is written to the server's TUN. */
  lemma PacketArrives(c: Config, owner: Quad, hello: Message, now: u64, p: Payload) returns (acts: seq<Action>)
    requires hello.kind == AUTH_REQUEST && Decide(c, c.parse(hello.payload), now) == Window.Accepts
    ensures var s := Run(c, owner, acts); s.link.sent == [hello, Message(IP_PACKET, p)] && s.forwarded == [p]
  {
    var packet := Message(IP_PACKET, p);
    acts := Opened(c, owner);
    acts := CanSend(c, owner, acts, hello);
    acts := CanSend(c, owner, acts, packet);
    assert Run(c, owner, acts).link.sent == [hello, packet];
    acts := Admitted(c, owner, acts, hello, now);
    var s := Run(c, owner, acts);
    DispatchOfEncode(packet, []);
    HeardStep(c, s, packet, now);
    acts := Then(c, owner, acts, ServerReads(now));
  }
}
